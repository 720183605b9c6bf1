/** The block/unblock machine: quota enforcement over (email, inbound) rows against a live runtime
    (internal/stats/quota.go and expiry.go, internal/store/remote/quota.go and users.go). */
module Quota {
  import opened Rows
  import opened Text

  type Email = string
  type Tag = string

  const DEFAULT_TAG := "vless-reality"
  const DEFAULT_QUOTA := 300 * 1024 * 1024 * 1024
  const DEFAULT_WINDOW := 30 * 86400

  datatype QuotaPolicy = QuotaPolicy(email: Email, uuid: string, tag: Tag, enabled: bool, limit: Option<int>)

  /** One row of quota_state. */
  datatype QuotaState = QuotaState(blocked: bool, at: Option<int>)

  datatype UserPolicy = UserPolicy(
    email: Email, username: string, uuid: string, enabled: bool, expiry: Option<int>, tag: Tag)

  /** A user present on a live inbound. */
  datatype Member = Member(tag: Tag, email: Email)

  /** Everything the enforcers read and change, except the traffic tables. */
  datatype Agent = Agent(
    policies: seq<QuotaPolicy>, states: map<Email, QuotaState>, users: seq<UserPolicy>, members: set<Member>)

  function Blocked(states: map<Email, QuotaState>, e: Email): bool {
    e in states && states[e].blocked
  }

  /** Both policy tables have (email, inbound_tag) as their primary key. */
  ghost predicate UniqueKeys(rows: seq<QuotaPolicy>) {
    forall i, j :: 0 <= i < j < |rows| ==> KeyOf(rows[i]) != KeyOf(rows[j])
  }

  function KeyOf(p: QuotaPolicy): Member {
    Member(p.tag, p.email)
  }

  /** The rows of one email agree in everything but the inbound tag. */
  ghost predicate Uniform(rows: seq<QuotaPolicy>) {
    forall i, j :: 0 <= i < |rows| && 0 <= j < |rows| && rows[i].email == rows[j].email
      ==> rows[i].(tag := "") == rows[j].(tag := "")
  }

  predicate HasPolicy(rows: seq<QuotaPolicy>, e: Email) {
    exists i :: 0 <= i < |rows| && rows[i].email == e
  }

  function EffectiveQuota(p: QuotaPolicy, default: int): (q: int)
    ensures default > 0 ==> q > 0
  {
    if p.limit.Some? && p.limit.value > 0 then p.limit.value else default
  }

  /** The quota the enforcer falls back to when none is configured. */
  function DefaultQuota(configured: int): (q: int)
    ensures q > 0
  {
    if configured <= 0 then DEFAULT_QUOTA else configured
  }

  // ---------------------------------------------------------------------------------------------
  // The live runtime

  datatype Outcome = Ok | AlreadyPresent | Missing | Other

  function AddOutcome(members: set<Member>, m: Member, fault: bool): Outcome {
    if fault then Other else if m in members then AlreadyPresent else Ok
  }

  function RemoveOutcome(members: set<Member>, m: Member, fault: bool): Outcome {
    if fault then Other else if m !in members then Missing else Ok
  }

  predicate Complete(p: QuotaPolicy) {
    !Blank(p.tag) && !Blank(p.email)
  }

  /** QuotaEnforcer.runtimeAdd returns nil. */
  predicate AddSucceeds(p: QuotaPolicy, fault: bool) {
    Complete(p) && !Blank(p.uuid) && !fault
  }

  /** QuotaEnforcer.runtimeRemove returns nil: unlike an add of a present user, the removal of a
      missing one is an error. */
  predicate RemoveSucceeds(p: QuotaPolicy, members: set<Member>, fault: bool) {
    Complete(p) && RemoveOutcome(members, KeyOf(p), fault) == Ok
  }

  // ---------------------------------------------------------------------------------------------
  // One enforcement pass

  datatype Action = Keep | Unblock | Block

  function ActionOf(p: QuotaPolicy, blocked: bool, usage: int, default: int): Action {
    if !p.enabled then (if blocked then Unblock else Keep)
    else if blocked then (if usage >= EffectiveQuota(p, default) then Keep else Unblock)
    else if usage < EffectiveQuota(p, default) then Keep else Block
  }

  datatype RowFaults = RowFaults(runtime: bool, store: bool)

  datatype Failure =
    | AddFailed(email: Email)
    | ClearFailed(email: Email)
    | RemoveFailed(email: Email)
    | PersistFailed(email: Email)

  function CombineFirst(current: Option<Failure>, next: Failure): Option<Failure> {
    if current.Some? then current else Some(next)
  }

  /** What a pass has changed and counted so far. */
  datatype Pass = Pass(
    states: map<Email, QuotaState>, members: set<Member>,
    blocked: set<Email>, over80: set<Email>, over95: set<Email>, err: Option<Failure>)

  function BandOf(usage: int, quota: int): real
    requires quota > 0
  {
    usage as real / quota as real
  }

  function EnforceRow(t: Pass, p: QuotaPolicy, wasBlocked: bool, usage: int, default: int, now: int, f: RowFaults): Pass
    requires default > 0
  {
    var e := p.email;
    var ratio := BandOf(usage, EffectiveQuota(p, default));
    var u := t.(over80 := t.over80 + (if p.enabled && ratio >= 0.80 then {e} else {}),
                over95 := t.over95 + (if p.enabled && ratio >= 0.95 then {e} else {}));
    match ActionOf(p, wasBlocked, usage, default)
    case Keep => if p.enabled && wasBlocked then u.(blocked := u.blocked + {e}) else u
    case Unblock =>
      if !AddSucceeds(p, f.runtime) then u.(err := CombineFirst(u.err, AddFailed(e)), blocked := u.blocked + {e})
      else if f.store then
        u.(members := u.members + {KeyOf(p)}, err := CombineFirst(u.err, ClearFailed(e)), blocked := u.blocked + {e})
      else
        u.(members := u.members + {KeyOf(p)}, states := u.states[e := QuotaState(false, None)])
    case Block =>
      if !RemoveSucceeds(p, u.members, f.runtime) then u.(err := CombineFirst(u.err, RemoveFailed(e)))
      else if f.store then u.(members := u.members - {KeyOf(p)}, err := CombineFirst(u.err, PersistFailed(e)))
      else
        u.(members := u.members - {KeyOf(p)}, states := u.states[e := QuotaState(true, Some(now))],
           blocked := u.blocked + {e})
  }

  /** What the pass works from: the configured quota, the window usage of every email, the clock and
      which calls of which row fail. */
  datatype Setting = Setting(default: int, usage: Email -> int, now: int, faults: nat -> RowFaults)

  /** The pass over the first n rows; the blocked flags are read once, before it starts. */
  function EnforceRows(a: Agent, s: Setting, n: nat): Pass
    requires n <= |a.policies| && s.default > 0
  {
    if n == 0 then Pass(a.states, a.members, {}, {}, {}, None)
    else
      var p := a.policies[n - 1];
      EnforceRow(EnforceRows(a, s, n - 1), p, Blocked(a.states, p.email), s.usage(p.email), s.default,
        s.now, s.faults(n - 1))
  }

  function Enforce(a: Agent, s: Setting): Pass
    requires s.default > 0
  {
    EnforceRows(a, s, |a.policies|)
  }

  function Enforced(a: Agent, s: Setting): Agent
    requires s.default > 0
  {
    var t := Enforce(a, s);
    a.(states := t.states, members := t.members)
  }

  // ---------------------------------------------------------------------------------------------
  // What a pass does, row by row and email by email

  function RowAction(a: Agent, s: Setting, i: nat): Action
    requires i < |a.policies|
  {
    var p := a.policies[i];
    ActionOf(p, Blocked(a.states, p.email), s.usage(p.email), s.default)
  }

  /** Row i removes its user from the runtime. */
  predicate RowRemoves(a: Agent, s: Setting, i: nat)
    requires i < |a.policies|
  {
    RowAction(a, s, i) == Block && RemoveSucceeds(a.policies[i], a.members, s.faults(i).runtime)
  }

  predicate RowAdds(a: Agent, s: Setting, i: nat)
    requires i < |a.policies|
  {
    RowAction(a, s, i) == Unblock && AddSucceeds(a.policies[i], s.faults(i).runtime)
  }

  /** One row changes the membership of its own key and the flag of its own email, nothing else. */
  lemma RowEffect(t: Pass, p: QuotaPolicy, wasBlocked: bool, usage: int, default: int, now: int, f: RowFaults,
      m: Member, e: Email)
    requires default > 0
    ensures var act := ActionOf(p, wasBlocked, usage, default);
      var adds := act == Unblock && AddSucceeds(p, f.runtime);
      var removes := act == Block && RemoveSucceeds(p, t.members, f.runtime);
      var u := EnforceRow(t, p, wasBlocked, usage, default, now, f);
      && (m in u.members <==>
        if m == KeyOf(p) && removes then false else if m == KeyOf(p) && adds then true else m in t.members)
      && (Blocked(u.states, e) <==> if e == p.email && adds && !f.store then false
                                    else if e == p.email && removes && !f.store then true
                                    else Blocked(t.states, e))
  {
  }

  /** Because keys are unique, membership of a row is decided by that row alone. */
  lemma {:induction false} MembersAfter(a: Agent, s: Setting, n: nat, i: nat)
    requires n <= |a.policies| && i < |a.policies| && s.default > 0 && UniqueKeys(a.policies)
    ensures KeyOf(a.policies[i]) in EnforceRows(a, s, n).members <==>
      if i < n && RowRemoves(a, s, i) then false
      else if i < n && RowAdds(a, s, i) then true
      else KeyOf(a.policies[i]) in a.members
  {
    hide EnforceRow;
    if n > 0 {
      MembersAfter(a, s, n - 1, i);
      var p := a.policies[n - 1];
      RowEffect(EnforceRows(a, s, n - 1), p, Blocked(a.states, p.email), s.usage(p.email), s.default, s.now,
                s.faults(n - 1), KeyOf(a.policies[i]), p.email);
      assert i < n - 1 ==> KeyOf(a.policies[i]) != KeyOf(p);
      assert i > n - 1 ==> KeyOf(p) != KeyOf(a.policies[i]);
    }
  }

  /** Members no policy row speaks of are not touched. */
  lemma {:induction false} OtherMembersKept(a: Agent, s: Setting, n: nat, m: Member)
    requires n <= |a.policies| && s.default > 0
    requires forall i :: 0 <= i < |a.policies| ==> KeyOf(a.policies[i]) != m
    ensures m in EnforceRows(a, s, n).members <==> m in a.members
  {
    if n > 0 {
      OtherMembersKept(a, s, n - 1, m);
    }
  }

  /** Some row of the email before n cleared, or set, its flag. */
  predicate Cleared(a: Agent, s: Setting, e: Email, n: nat)
    requires n <= |a.policies|
  {
    exists i :: 0 <= i < n && a.policies[i].email == e && RowAdds(a, s, i) && !s.faults(i).store
  }

  predicate Flagged(a: Agent, s: Setting, e: Email, n: nat)
    requires n <= |a.policies|
  {
    exists i :: 0 <= i < n && a.policies[i].email == e && RowRemoves(a, s, i) && !s.faults(i).store
  }

  lemma {:induction false} BlockedAfter(a: Agent, s: Setting, n: nat, e: Email)
    requires n <= |a.policies| && s.default > 0 && UniqueKeys(a.policies)
    ensures Blocked(EnforceRows(a, s, n).states, e) <==>
      if Blocked(a.states, e) then !Cleared(a, s, e, n) else Flagged(a, s, e, n)
  {
    hide EnforceRow, UniqueKeys;
    if n > 0 {
      BlockedAfter(a, s, n - 1, e);
      MembersAfter(a, s, n - 1, n - 1);
      var p := a.policies[n - 1];
      var f := s.faults(n - 1);
      RowEffect(EnforceRows(a, s, n - 1), p, Blocked(a.states, p.email), s.usage(p.email), s.default,
        s.now, f, KeyOf(p), e);
      ClearedStep(a, s, e, n);
    }
  }

  lemma ClearedStep(a: Agent, s: Setting, e: Email, n: nat)
    requires 0 < n <= |a.policies|
    ensures Cleared(a, s, e, n) <==>
      Cleared(a, s, e, n - 1) || (a.policies[n - 1].email == e && RowAdds(a, s, n - 1) && !s.faults(n - 1).store)
    ensures Flagged(a, s, e, n) <==>
      Flagged(a, s, e, n - 1) || (a.policies[n - 1].email == e && RowRemoves(a, s, n - 1) && !s.faults(n - 1).store)
  {
  }

  /** A blocked email has a policy row and is absent from the runtime on every one of its inbounds. */
  ghost predicate Safe(a: Agent) {
    forall e :: SafeEmail(a, e)
  }

  ghost predicate SafeEmail(a: Agent, e: Email) {
    Blocked(a.states, e) ==>
      && HasPolicy(a.policies, e)
      && forall i :: 0 <= i < |a.policies| && a.policies[i].email == e ==> KeyOf(a.policies[i]) !in a.members
  }

  /** A block that removes the user from one inbound and gets stuck on another, or an unblock that
      adds the user back but never manages to clear the flag. */
  ghost predicate HalfDone(a: Agent, s: Setting, e: Email) {
    if Blocked(a.states, e) then
      && !Cleared(a, s, e, |a.policies|)
      && exists i :: 0 <= i < |a.policies| && a.policies[i].email == e && RowAdds(a, s, i)
    else
      && Flagged(a, s, e, |a.policies|)
      && exists i ::
        0 <= i < |a.policies| && a.policies[i].email == e && KeyOf(a.policies[i]) in a.members && !RowRemoves(a, s, i)
  }

  lemma HalfDoneExactly(a: Agent, s: Setting, e: Email)
    requires s.default > 0 && UniqueKeys(a.policies) && Uniform(a.policies) && SafeEmail(a, e)
    ensures SafeEmail(Enforced(a, s), e) <==> !HalfDone(a, s, e)
  {
    var n := |a.policies|;
    var b := Enforced(a, s);
    BlockedAfter(a, s, n, e);
    forall i | 0 <= i < n && a.policies[i].email == e
      ensures KeyOf(a.policies[i]) in b.members <==>
        if RowRemoves(a, s, i) then false else if RowAdds(a, s, i) then true else KeyOf(a.policies[i]) in a.members
    {
      MembersAfter(a, s, n, i);
    }
  }

  /** A pass from a safe state ends in a safe state exactly when no email is left half done. */
  lemma PassIsSafeExactlyWhen(a: Agent, s: Setting)
    requires s.default > 0 && UniqueKeys(a.policies) && Uniform(a.policies) && Safe(a)
    ensures Safe(Enforced(a, s)) <==> forall e :: !HalfDone(a, s, e)
  {
    forall e ensures SafeEmail(Enforced(a, s), e) <==> !HalfDone(a, s, e) {
      HalfDoneExactly(a, s, e);
    }
  }

  ghost predicate StoreWorks(s: Setting) {
    forall i: nat :: !s.faults(i).store
  }

  /** Apart from Missing and AlreadyPresent the runtime does not fail. */
  ghost predicate RuntimeWorks(s: Setting) {
    forall i: nat :: !s.faults(i).runtime
  }

  ghost predicate OneInbound(rows: seq<QuotaPolicy>) {
    forall i, j :: 0 <= i < |rows| && 0 <= j < |rows| ==> rows[i].tag == rows[j].tag
  }

  ghost predicate NoBlankKeys(rows: seq<QuotaPolicy>) {
    forall i :: 0 <= i < |rows| ==> Complete(rows[i])
  }

  /** With a working store nothing is left half done if the runtime only ever answers Missing or
      AlreadyPresent, or if the server has a single inbound, whatever the runtime answers. */
  lemma NeverHalfDone(a: Agent, s: Setting, e: Email)
    requires s.default > 0 && UniqueKeys(a.policies) && Uniform(a.policies) && NoBlankKeys(a.policies)
    requires StoreWorks(s)
    requires RuntimeWorks(s) || OneInbound(a.policies)
    ensures !HalfDone(a, s, e)
  {
  }

  /** With two inbounds one runtime error is enough: the user is blocked yet still present, and
      later passes leave it so, because an over-quota blocked row is only kept. */
  lemma PartialBlockLeavesUserPresent() returns (a: Agent, s: Setting)
    ensures s.default > 0 && UniqueKeys(a.policies) && Uniform(a.policies) && NoBlankKeys(a.policies) && Safe(a)
    ensures StoreWorks(s)
    ensures !Safe(Enforced(a, s))
    ensures forall later: Setting | later.default == s.default && later.usage == s.usage ::
              Enforced(Enforced(a, s), later) == Enforced(a, s)
  {
    hide EnforceRow, EnforceRows;
    var p, q := QuotaPolicy("u", "id", "t", true, Some(1)), QuotaPolicy("u", "id", "v", true, Some(1));
    a := Agent([p, q], map[], [], {KeyOf(p), KeyOf(q)});
    s := Setting(1, e => 5, 0, i => RowFaults(i == 1, false));
    assert !IsSpace('u') && !IsSpace('t') && !IsSpace('v');
    assert RowRemoves(a, s, 0) && !RowRemoves(a, s, 1) && !RowAdds(a, s, 1);
    assert KeyOf(q) in a.members;
    assert Flagged(a, s, "u", 2);
    assert HalfDone(a, s, "u");
    PassIsSafeExactlyWhen(a, s);
    var b := Enforced(a, s);
    BlockedAfter(a, s, 2, "u");
    forall later: Setting | later.default == s.default && later.usage == s.usage
      ensures Enforced(b, later) == b
    {
      OverQuotaBlockedIsKept(b, later, 2);
    }
  }

  /** Rows that are already blocked and still over quota change nothing in the store or runtime. */
  lemma {:induction false} OverQuotaBlockedIsKept(a: Agent, s: Setting, n: nat)
    requires n <= |a.policies| && s.default > 0
    requires forall i :: 0 <= i < |a.policies| ==> RowAction(a, s, i) == Keep
    ensures EnforceRows(a, s, n).states == a.states && EnforceRows(a, s, n).members == a.members
  {
    if n > 0 {
      OverQuotaBlockedIsKept(a, s, n - 1);
      assert RowAction(a, s, n - 1) == Keep;
    }
  }

  // ---------------------------------------------------------------------------------------------
  // A pass that returns nil

  predicate RowClean(a: Agent, s: Setting, i: nat)
    requires i < |a.policies|
  {
    && (RowAction(a, s, i) == Unblock ==> RowAdds(a, s, i) && !s.faults(i).store)
    && (RowAction(a, s, i) == Block ==> RowRemoves(a, s, i) && !s.faults(i).store)
  }

  lemma RowErr(t: Pass, p: QuotaPolicy, wasBlocked: bool, usage: int, default: int, now: int, f: RowFaults)
    requires default > 0
    ensures var act := ActionOf(p, wasBlocked, usage, default);
      EnforceRow(t, p, wasBlocked, usage, default, now, f).err.None? <==>
        && t.err.None?
        && (act == Unblock ==> AddSucceeds(p, f.runtime) && !f.store)
        && (act == Block ==> RemoveSucceeds(p, t.members, f.runtime) && !f.store)
  {
  }

  lemma NextRowClean(a: Agent, s: Setting, n: nat)
    requires 0 < n <= |a.policies| && s.default > 0 && UniqueKeys(a.policies)
    ensures EnforceRows(a, s, n).err.None? <==> EnforceRows(a, s, n - 1).err.None? && RowClean(a, s, n - 1)
  {
    hide EnforceRow, UniqueKeys;
    var p := a.policies[n - 1];
    MembersAfter(a, s, n - 1, n - 1);
    RowErr(EnforceRows(a, s, n - 1), p, Blocked(a.states, p.email), s.usage(p.email), s.default,
      s.now, s.faults(n - 1));
  }

  lemma {:induction false} NilMeansEveryRowClean(a: Agent, s: Setting, n: nat)
    requires n <= |a.policies| && s.default > 0 && UniqueKeys(a.policies)
    ensures EnforceRows(a, s, n).err.None? <==> forall i :: 0 <= i < n ==> RowClean(a, s, i)
  {
    if n > 0 {
      NilMeansEveryRowClean(a, s, n - 1);
      NextRowClean(a, s, n);
    }
  }

  /** The rule the enforcer is there for. */
  predicate OverQuota(p: QuotaPolicy, usage: int, default: int) {
    p.enabled && usage >= EffectiveQuota(p, default)
  }

  /** After a pass that returns nil every policy email is blocked exactly when its quota is enabled
      and its window usage has reached the quota; rows blocked by the pass are out of the runtime and
      rows unblocked by it are in. */
  lemma NilPassDecides(a: Agent, s: Setting, i: nat)
    requires s.default > 0 && UniqueKeys(a.policies) && Uniform(a.policies)
    requires i < |a.policies| && Enforce(a, s).err.None?
    ensures var p, b := a.policies[i], Enforced(a, s);
      && (Blocked(b.states, p.email) <==> OverQuota(p, s.usage(p.email), s.default))
      && (Blocked(b.states, p.email) && !Blocked(a.states, p.email) ==> KeyOf(p) !in b.members)
      && (!Blocked(b.states, p.email) && Blocked(a.states, p.email) ==> KeyOf(p) in b.members)
      && (Blocked(b.states, p.email) == Blocked(a.states, p.email) ==>
        (KeyOf(p) in b.members <==> KeyOf(p) in a.members))
  {
    var n, e := |a.policies|, a.policies[i].email;
    NilMeansEveryRowClean(a, s, n);
    assert RowClean(a, s, i);
    BlockedAfter(a, s, n, e);
    MembersAfter(a, s, n, i);
    assert forall j :: 0 <= j < n && a.policies[j].email == e ==> RowAction(a, s, j) == RowAction(a, s, i) by {
      SameEmailSameAction(a, s, i);
    }
  }

  lemma SameEmailSameAction(a: Agent, s: Setting, i: nat)
    requires Uniform(a.policies) && i < |a.policies|
    ensures forall j :: 0 <= j < |a.policies| && a.policies[j].email == a.policies[i].email ==>
      RowAction(a, s, j) == RowAction(a, s, i) && OverQuota(a.policies[j], s.usage(a.policies[j].email), s.default)
                                               == OverQuota(a.policies[i], s.usage(a.policies[i].email), s.default)
  {
    forall j | 0 <= j < |a.policies| && a.policies[j].email == a.policies[i].email
      ensures RowAction(a, s, j) == RowAction(a, s, i)
           && OverQuota(a.policies[j], s.usage(a.policies[j].email), s.default)
           == OverQuota(a.policies[i], s.usage(a.policies[i].email), s.default)
    {
      var p, q := a.policies[j], a.policies[i];
      assert p.(tag := "") == q.(tag := "");
      assert p.enabled == p.(tag := "").enabled && p.limit == p.(tag := "").limit;
      assert q.enabled == q.(tag := "").enabled && q.limit == q.(tag := "").limit;
    }
  }

  function PolicyEmails(rows: seq<QuotaPolicy>): set<Email> {
    set i | 0 <= i < |rows| :: rows[i].email
  }

  /** The policy emails that are blocked: what QuotaStatus counts as BlockedUsers. */
  function BlockedPolicyEmails(a: Agent): set<Email> {
    set e | e in PolicyEmails(a.policies) && Blocked(a.states, e)
  }

  /** The policy emails whose quota is enabled and whose usage has reached a share of it. */
  function InBand(a: Agent, s: Setting, share: real): set<Email>
    requires s.default > 0
  {
    set i | 0 <= i < |a.policies| && a.policies[i].enabled &&
      BandOf(s.usage(a.policies[i].email), EffectiveQuota(a.policies[i], s.default)) >= share :: a.policies[i].email
  }

  lemma RowBands(t: Pass, p: QuotaPolicy, wasBlocked: bool, usage: int, default: int, now: int, f: RowFaults)
    requires default > 0
    ensures var u := EnforceRow(t, p, wasBlocked, usage, default, now, f);
      var ratio := BandOf(usage, EffectiveQuota(p, default));
      && u.over80 == t.over80 + (if p.enabled && ratio >= 0.80 then {p.email} else {})
      && u.over95 == t.over95 + (if p.enabled && ratio >= 0.95 then {p.email} else {})
  {
  }

  lemma {:induction false} BandsAfter(a: Agent, s: Setting, n: nat)
    requires n <= |a.policies| && s.default > 0
    ensures EnforceRows(a, s, n).over80 == InBand(a.(policies := a.policies[..n]), s, 0.80)
    ensures EnforceRows(a, s, n).over95 == InBand(a.(policies := a.policies[..n]), s, 0.95)
  {
    if n > 0 {
      BandsAfter(a, s, n - 1);
      var p := a.policies[n - 1];
      RowBands(EnforceRows(a, s, n - 1), p, Blocked(a.states, p.email), s.usage(p.email), s.default,
        s.now, s.faults(n - 1));
      InBandStep(a, s, n, 0.80);
      InBandStep(a, s, n, 0.95);
    }
  }

  lemma InBandStep(a: Agent, s: Setting, n: nat, share: real)
    requires 0 < n <= |a.policies| && s.default > 0
    ensures var p := a.policies[n - 1];
      InBand(a.(policies := a.policies[..n]), s, share) == InBand(a.(policies := a.policies[..n - 1]), s, share) +
        (if p.enabled && BandOf(s.usage(p.email), EffectiveQuota(p, s.default)) >= share then {p.email} else {})
  {
    var rows, fewer := a.policies[..n], a.policies[..n - 1];
    assert forall i :: 0 <= i < n - 1 ==> rows[i] == fewer[i];
  }

  /** The emails a nil pass reports as blocked while going over its first n rows. */
  lemma {:induction false} ReportedAfter(a: Agent, s: Setting, n: nat)
    requires n <= |a.policies| && s.default > 0 && UniqueKeys(a.policies)
    requires EnforceRows(a, s, n).err.None?
    ensures EnforceRows(a, s, n).blocked
         == set i | 0 <= i < n && OverQuota(a.policies[i], s.usage(a.policies[i].email), s.default) ::
           a.policies[i].email
  {
    if n > 0 {
      ReportedAfter(a, s, n - 1);
    }
  }

  /** The number of blocked users a nil pass reports is the one QuotaStatus reports right after. */
  lemma NilPassReportsStatus(a: Agent, s: Setting)
    requires s.default > 0 && UniqueKeys(a.policies) && Uniform(a.policies) && Enforce(a, s).err.None?
    ensures Enforce(a, s).blocked == BlockedPolicyEmails(Enforced(a, s))
    ensures Enforce(a, s).over80 == InBand(a, s, 0.80) && Enforce(a, s).over95 == InBand(a, s, 0.95)
  {
    var n, b := |a.policies|, Enforced(a, s);
    ReportedAfter(a, s, n);
    BandsAfter(a, s, n);
    assert a.(policies := a.policies[..n]) == a;
    forall i | 0 <= i < n
      ensures Blocked(b.states, a.policies[i].email) <==>
        OverQuota(a.policies[i], s.usage(a.policies[i].email), s.default)
    {
      NilPassDecides(a, s, i);
    }
    forall e ensures e in Enforce(a, s).blocked <==> e in BlockedPolicyEmails(b) {
      if e in BlockedPolicyEmails(b) {
        var i :| 0 <= i < n && a.policies[i].email == e;
      }
    }
  }

  /** Once the rolling window holds no usage, a pass that returns nil leaves nobody blocked. */
  lemma IdleUnblocksEverybody(a: Agent, s: Setting)
    requires s.default > 0 && UniqueKeys(a.policies) && Uniform(a.policies) && Enforce(a, s).err.None?
    requires forall e :: s.usage(e) == 0
    ensures BlockedPolicyEmails(Enforced(a, s)) == {}
  {
    forall i | 0 <= i < |a.policies| ensures !Blocked(Enforced(a, s).states, a.policies[i].email) {
      NilPassDecides(a, s, i);
    }
  }

  // ---------------------------------------------------------------------------------------------
  // Expiry

  /** The cutoff is exclusive. */
  predicate Expired(expiry: Option<int>, now: int) {
    expiry.Some? && now >= expiry.value
  }

  predicate Effective(enabled: bool, expiry: Option<int>, now: int) {
    enabled && !Expired(expiry, now)
  }

  function UserKey(u: UserPolicy): Member {
    Member(u.tag, u.email)
  }

  /** ExpiryEnforcer.runtimeRemove returns nil: here a missing user is fine. */
  predicate ExpirySucceeds(u: UserPolicy, fault: bool) {
    !Blank(u.tag) && !Blank(u.email) && !fault
  }

  /** Runtime membership after the first n user rows, and whether all removals returned nil. */
  function ExpireRows(users: seq<UserPolicy>, members: set<Member>, now: int, faults: nat -> bool,
      n: nat): (set<Member>, bool)
    requires n <= |users|
  {
    if n == 0 then (members, true)
    else
      var (m, ok) := ExpireRows(users, members, now, faults, n - 1);
      var u := users[n - 1];
      if Effective(u.enabled, u.expiry, now) then (m, ok)
      else if ExpirySucceeds(u, faults(n - 1)) then (m - {UserKey(u)}, ok)
      else (m, false)
  }

  function Expire(a: Agent, now: int, faults: nat -> bool): (Agent, bool) {
    var (m, ok) := ExpireRows(a.users, a.members, now, faults, |a.users|);
    (a.(members := m), ok)
  }

  /** A user-policy row says that this member must not be served. */
  predicate Barred(users: seq<UserPolicy>, m: Member, now: int) {
    exists i :: 0 <= i < |users| && UserKey(users[i]) == m && !Effective(users[i].enabled, users[i].expiry, now)
  }

  lemma {:induction false} ExpiryOnlyRemovesBarred(users: seq<UserPolicy>, members: set<Member>, now: int,
      faults: nat -> bool, n: nat, m: Member)
    requires n <= |users|
    ensures var r := ExpireRows(users, members, now, faults, n);
      && (m in r.0 ==> m in members)
      && (m in members && !Barred(users[..n], m, now) ==> m in r.0)
      && (r.1 && Barred(users[..n], m, now) ==> m !in r.0)
  {
    if n > 0 {
      ExpiryOnlyRemovesBarred(users, members, now, faults, n - 1, m);
      BarredStep(users, n, m, now);
    }
  }

  lemma BarredStep(users: seq<UserPolicy>, n: nat, m: Member, now: int)
    requires 0 < n <= |users|
    ensures Barred(users[..n], m, now) <==>
      Barred(users[..n - 1], m, now) ||
        (UserKey(users[n - 1]) == m && !Effective(users[n - 1].enabled, users[n - 1].expiry, now))
  {
    var rows, fewer := users[..n], users[..n - 1];
    assert forall i :: 0 <= i < n - 1 ==> rows[i] == fewer[i];
    if UserKey(rows[n - 1]) == m && !Effective(rows[n - 1].enabled, rows[n - 1].expiry, now) {
      assert Barred(rows, m, now);
    }
    if Barred(fewer, m, now) {
      var i :| 0 <= i < n - 1 && UserKey(fewer[i]) == m && !Effective(fewer[i].enabled, fewer[i].expiry, now);
      assert UserKey(rows[i]) == m;
    }
  }

  /** Expiry enforcement that returns nil removes exactly the barred members. */
  lemma NilExpiryRemovesExactlyBarred(a: Agent, now: int, faults: nat -> bool, m: Member)
    requires Expire(a, now, faults).1
    ensures m in Expire(a, now, faults).0.members <==> m in a.members && !Barred(a.users, m, now)
  {
    ExpiryOnlyRemovesBarred(a.users, a.members, now, faults, |a.users|, m);
    assert a.users[..|a.users|] == a.users;
  }
}
