/** User commands whose remote part fails on some servers. The runtime call of a change may be replaced
    by a deploy, and a deploy seeds the server from what all enabled servers hold at that moment
    (internal/cli/user_mutations.go, runtime_helpers.go, global_users.go). */
module RemoteFailures {
  import opened Rows
  import opened Text
  import opened Sorting
  import opened Identities
  import opened Users
  import opened Replication

  /** No enabled server comes after this one. */
  ghost predicate Last(nodes: seq<Node>, f: int) {
    forall g :: EnabledAt(nodes, g) ==> g <= f
  }

  // ---------------------------------------------------------------------------------------------
  // Seeding in the middle of a command

  lemma {:induction false} SeedNothing(t: Table, c: map<string, Entry>, names: seq<string>)
    requires forall n :: n in names ==> n in c && n in t && Canon(t[n].identity) == Canon(c[n].user.identity)
    ensures Seed(t, c, names) == (t, true)
  {
    hide Canon, Applied, StoreAdd, StoreUpdate;
    if names != [] {
      SeedNothing(t, c, names[..|names| - 1]);
    }
  }

  /** The server has every user some enabled server has. */
  ghost predicate HasAll(nodes: seq<Node>, f: int)
    requires EnabledAt(nodes, f)
  {
    forall j, n :: EnabledAt(nodes, j) && n in nodes[j].users ==> n in nodes[f].users
  }

  lemma SeedingChangesNothing(nodes: seq<Node>, f: nat)
    requires Compatible(nodes) && EnabledAt(nodes, f) && HasAll(nodes, f)
    ensures Materialize(nodes, f) == (nodes, true)
  {
    hide Entries, Consistent, Canonical, Canon, TableOk, Seed;
    CompatibleIsConsistent(nodes);
    var c := Canonical(Entries(nodes));
    OrderedItems(c.Keys);
    forall n | n in Ordered(c.Keys)
      ensures n in c && n in nodes[f].users && Canon(nodes[f].users[n].identity) == Canon(c[n].user.identity)
    {
      CanonicalUser(nodes, n);
    }
    SeedNothing(nodes[f].users, c, Ordered(c.Keys));
    assert nodes[f := nodes[f].(users := nodes[f].users)] == nodes;
  }

  lemma {:induction false} SeedOne(t: Table, c: map<string, Entry>, names: seq<string>, x: string)
    requires NoRepeats(names) && x !in t && x in c && c[x].username == x
    requires forall n :: n in names ==>
      n in c && (n != x ==> n in t && Canon(t[n].identity) == Canon(c[n].user.identity))
    requires !EmailTaken(t, x, c[x].user.identity.email) && TagsStorable(c[x].user.identity.tags)
    ensures Seed(t, c, names) == (if x in names then t[x := Copied(c[x].user).(quotaEnabled := true)] else t, true)
  {
    hide Canon, Applied, StoreUpdate, EmailTaken, TagsStorable;
    if names != [] {
      var fewer := names[..|names| - 1];
      SeedOne(t, c, fewer, x);
      assert names == fewer + [names[|names| - 1]];
    }
  }

  /** Server f misses user x only, which server g has. */
  ghost predicate MissesOne(nodes: seq<Node>, f: nat, g: nat, x: string) {
    && EnabledAt(nodes, f) && EnabledAt(nodes, g) && x in nodes[g].users && x !in nodes[f].users
    && (forall n :: n in nodes[f].users ==> n in nodes[g].users)
    && (forall j, n :: EnabledAt(nodes, j) && n in nodes[j].users && n != x ==> n in nodes[f].users)
  }

  lemma EmailIsFree(nodes: seq<Node>, f: nat, g: nat, x: string)
    requires Compatible(nodes) && MissesOne(nodes, f, g, x)
    ensures !EmailTaken(nodes[f].users, x, nodes[g].users[x].identity.email)
  {
    hide TagsStorable, CleanName;
    var t := nodes[f].users;
    assert TableOk(nodes[g].users);
    forall n | n in t ensures t[n].identity == nodes[g].users[n].identity {
    }
  }

  lemma CanonicalEntries(nodes: seq<Node>, f: nat, g: nat, x: string)
    requires Compatible(nodes) && MissesOne(nodes, f, g, x)
    ensures var c, t := Canonical(Entries(nodes)), nodes[f].users;
      && x in c && c[x].username == x && TagsStorable(c[x].user.identity.tags)
      && c[x].user.identity == nodes[g].users[x].identity
      && forall n :: n in c && n != x ==> n in t && Canon(t[n].identity) == Canon(c[n].user.identity)
  {
    hide Entries, Canonical, Canon, TagsStorable, CleanName, Compatible;
    var c, t := Canonical(Entries(nodes)), nodes[f].users;
    CanonicalUser(nodes, x);
    forall n | n in c && n != x ensures n in t && Canon(t[n].identity) == Canon(c[n].user.identity) {
      CanonicalUser(nodes, n);
    }
  }

  /** Seeding a server that misses one user brings the user back from a server that has it. */
  lemma SeedingRestores(nodes: seq<Node>, f: nat, g: nat, x: string) returns (u: User)
    requires Compatible(nodes) && MissesOne(nodes, f, g, x)
    ensures u.identity == nodes[g].users[x].identity
    ensures Materialize(nodes, f) == (nodes[f := nodes[f].(users := nodes[f].users[x := u])], true)
  {
    CompatibleIsConsistent(nodes);
    CanonicalEntries(nodes, f, g, x);
    EmailIsFree(nodes, f, g, x);
    hide Entries, Consistent, Canonical, Canon, Seed, TagsStorable, EmailTaken, Compatible, MissesOne;
    var c := Canonical(Entries(nodes));
    OrderedItems(c.Keys);
    SeedOne(nodes[f].users, c, Ordered(c.Keys), x);
    u := Copied(c[x].user).(quotaEnabled := true);
  }

  lemma TableStaysOk(t: Table, from: Table, x: string, u: User)
    requires TableOk(from) && x in from && u.identity == from[x].identity && x !in t
    requires forall n :: n in t ==> n in from && t[n].identity == from[n].identity
    ensures TableOk(t[x := u])
  {
    hide TagsStorable, CleanName;
  }

  /** Two enabled servers hold different identities of one user. */
  ghost predicate Conflict(nodes: seq<Node>, name: string) {
    CleanName(name) &&
    exists i, j :: EnabledAt(nodes, i) && EnabledAt(nodes, j) && name in nodes[i].users && name in nodes[j].users &&
      Canon(nodes[i].users[name].identity) != Canon(nodes[j].users[name].identity)
  }

  lemma ConflictIsInconsistent(nodes: seq<Node>, name: string)
    requires Conflict(nodes, name)
    ensures !Consistent(Entries(nodes)) && EnabledCount(nodes) > 1
  {
    hide Entries, Canon;
    var i, j :| EnabledAt(nodes, i) && EnabledAt(nodes, j) && name in nodes[i].users && name in nodes[j].users &&
      Canon(nodes[i].users[name].identity) != Canon(nodes[j].users[name].identity);
    AnotherEnabled(nodes, i);
    var a, b := Entry(name, nodes[i].users[name]), Entry(name, nodes[j].users[name]);
    EntriesMembers(nodes, a);
    EntriesMembers(nodes, b);
    assert SameUser(a, b);
  }

  /** A conflict makes every user command fail without touching anything. */
  lemma ConflictRefusesCommands(nodes: seq<Node>, name: string, op: Op, keysAgree: bool, clock: nat -> int,
      remote: nat -> Remote)
    requires Conflict(nodes, name)
    ensures Mutate(nodes, op, keysAgree, clock, remote) == (nodes, false)
  {
    ConflictIsInconsistent(nodes, name);
  }

  // ---------------------------------------------------------------------------------------------
  // Commands that add or change a user

  /** The first k servers hold the new identities, the others are as before. */
  ghost predicate Mixed(nodes: seq<Node>, nodes': seq<Node>, k: nat, ids: IdTable) {
    && SameShape(nodes, nodes')
    && (forall i :: k <= i < |nodes| ==> nodes'[i] == nodes[i])
    && (forall i :: 0 <= i < k && EnabledAt(nodes, i) ==> Ids(nodes'[i].users) == ids)
    && (forall i :: 0 <= i < |nodes| ==> TableOk(nodes'[i].users))
  }

  ghost predicate Agree(a: IdTable, b: IdTable) {
    forall n :: n in a && n in b ==> a[n] == b[n]
  }

  lemma MixedIdentity(nodes: seq<Node>, nodes': seq<Node>, k: nat, ids: IdTable, ids': IdTable, i: int, n: string)
    requires AllHave(nodes, ids) && Mixed(nodes, nodes', k, ids') && EnabledAt(nodes', i) && n in nodes'[i].users
    ensures (n in ids && nodes'[i].users[n].identity == ids[n]) || (n in ids' && nodes'[i].users[n].identity == ids'[n])
  {
    hide TableOk;
    assert EnabledAt(nodes, i);
    assert Ids(nodes'[i].users)[n] == nodes'[i].users[n].identity;
  }

  lemma MixedIsCompatible(nodes: seq<Node>, nodes': seq<Node>, k: nat, ids: IdTable, ids': IdTable)
    requires AllHave(nodes, ids) && Mixed(nodes, nodes', k, ids') && Agree(ids, ids')
    ensures Compatible(nodes')
  {
    hide TableOk, Ids;
    forall i, j, n | EnabledAt(nodes', i) && EnabledAt(nodes', j) && n in nodes'[i].users && n in nodes'[j].users
      ensures nodes'[i].users[n].identity == nodes'[j].users[n].identity
    {
      MixedIdentity(nodes, nodes', k, ids, ids', i, n);
      MixedIdentity(nodes, nodes', k, ids, ids', j, n);
    }
  }

  /** What lets a command that changes identities go on to the next server. */
  predicate Passes(op: Op, remote: Remote) {
    remote.Fine? || (op.AddUser? && remote == Redeployed(true))
  }

  lemma ChangeIsVisible(ids: IdTable, op: Op, now: int)
    requires op.name in ids && (op.SetEnabled? || op.SetExpiry?)
    ensures var ids' := IdApply(ids, op, now).0;
      && ids'.Keys == ids.Keys && (forall n :: n in ids && n != op.name ==> ids'[n] == ids[n])
      && (ids' != ids ==> Canon(ids'[op.name]) != Canon(ids[op.name]))
  {
    hide Trim, NormalizeTags, TagsStorable, IdEmailTaken;
  }

  /** A change that every enabled server can be asked for: what holds once the servers are resolved. */
  ghost predicate Ready(nodes: seq<Node>, op: Op, ids: IdTable) {
    && Healthy(nodes) && GoodOp(op) && AllHave(nodes, ids) && (exists i :: EnabledAt(nodes, i))
    && (op.name in ids <==> !op.AddUser?)
  }

  lemma RowWritten(nodes: seq<Node>, nodes': seq<Node>, k: nat, op: Op, now: int, ids: IdTable)
    requires Ready(nodes, op, ids) && EnabledAt(nodes, k) && Mixed(nodes, nodes', k, IdApply(ids, op, now).0)
    ensures var (t, ok) := ApplyOn(nodes'[k].users, op, now);
      && ok == IdApply(ids, op, now).1
      && (ok || IdApply(ids, op, now).0 == ids)
      && Mixed(nodes, nodes'[k := nodes'[k].(users := t)], k + 1, IdApply(ids, op, now).0)
  {
    hide TableOk, ApplyOn, IdApply, Ids, TagsStorable, CleanName;
    assert nodes'[k] == nodes[k];
    ApplyRefines(nodes[k].users, op, now);
    ApplyKeepsTable(nodes[k].users, op, now);
    FailureChangesNothing(nodes[k].users, op, now);
  }

  lemma ChangedAgrees(ids: IdTable, op: Op, now: int)
    requires op.name in ids <==> !op.AddUser?
    requires op.AddUser? || IdApply(ids, op, now).0 == ids
    ensures Agree(ids, IdApply(ids, op, now).0)
  {
    hide TagsStorable, IdEmailTaken;
  }

  /** Seeding right after the row of server k was written changes nothing when that server has every
      user by now. */
  lemma SeedingAfterChange(nodes: seq<Node>, after: seq<Node>, k: nat, op: Op, now: int, ids: IdTable)
    requires Ready(nodes, op, ids) && EnabledAt(nodes, k) && Mixed(nodes, after, k + 1, IdApply(ids, op, now).0)
    requires IdApply(ids, op, now).0 == ids || op.AddUser? || (Last(nodes, k) && !op.RemoveUser?)
    ensures Materialize(after, k) == (after, true)
  {
    hide TableOk, ApplyOn, Materialize, Ids, TagsStorable, CleanName, Healthy, IdEmailTaken;
    var ids' := IdApply(ids, op, now).0;
    if IdApply(ids, op, now).0 == ids || op.AddUser? {
      ChangedAgrees(ids, op, now);
      MixedIsCompatible(nodes, after, k + 1, ids, ids');
    } else {
      AllMixed(nodes, after, k, ids');
      assert Agree(ids', ids');
      MixedIsCompatible(after, after, 0, ids', ids');
    }
    assert EnabledAt(after, k);
    forall j, n | EnabledAt(after, j) && n in after[j].users ensures n in after[k].users {
      assert EnabledAt(nodes, j);
      IdsHas(after[j].users, n);
      IdsHas(after[k].users, n);
      assert Ids(after[j].users) == ids' || Ids(after[j].users) == ids;
    }
    SeedingChangesNothing(after, k);
  }

  lemma AllMixed(nodes: seq<Node>, after: seq<Node>, k: nat, ids': IdTable)
    requires Last(nodes, k) && Mixed(nodes, after, k + 1, ids')
    ensures AllHave(after, ids') && Mixed(after, after, 0, ids')
  {
    hide TableOk, Ids;
    forall i | EnabledAt(after, i) ensures Ids(after[i].users) == ids' {
      assert EnabledAt(nodes, i);
    }
  }

  /** A changed identity on server k conflicts with the old one on a later server. */
  lemma HalfChangedConflicts(nodes: seq<Node>, after: seq<Node>, k: nat, op: Op, now: int, ids: IdTable)
    requires Ready(nodes, op, ids) && EnabledAt(nodes, k) && Mixed(nodes, after, k + 1, IdApply(ids, op, now).0)
    requires IdApply(ids, op, now).0 != ids && (op.SetEnabled? || op.SetExpiry?) && !Last(nodes, k)
    ensures Conflict(after, op.name)
  {
    hide TableOk, ApplyOn, IdApply, TagsStorable, CleanName, Healthy, Canon;
    var g :| EnabledAt(nodes, g) && g > k;
    ChangeIsVisible(ids, op, now);
    assert EnabledAt(after, k) && EnabledAt(after, g) && after[g] == nodes[g];
    var a, b := after[k].users, after[g].users;
    assert op.name in Ids(a) && op.name in Ids(b);
    assert Ids(a)[op.name] == a[op.name].identity && Ids(b)[op.name] == b[op.name].identity;
  }

  /** What follows once a row was added or changed leaves the rows alone. */
  lemma RemotePartMixes(nodes: seq<Node>, after: seq<Node>, k: nat, op: Op, now: int, fallsBack: bool, remote: Remote,
      ids: IdTable)
    requires Ready(nodes, op, ids) && EnabledAt(nodes, k) && Mixed(nodes, after, k + 1, IdApply(ids, op, now).0)
    requires (op.AddUser? ==> fallsBack) && (fallsBack ==> op.AddUser? || op.SetEnabled? || op.SetExpiry?)
    ensures k < |after|
    ensures var (after', ok) := AfterRemote(after, k, fallsBack, remote);
      && after' == after
      && (IdApply(ids, op, now).0 != ids ==>
        (Passes(op, remote) ==> ok) && (ok ==> Passes(op, remote) || Last(nodes, k)))
  {
    assert k < |after|;
    hide TableOk, Materialize, Ids, Mixed, Ready, IdApply, Last, Conflict;
    if remote.Redeployed? && fallsBack {
      if IdApply(ids, op, now).0 == ids || op.AddUser? || Last(nodes, k) {
        SeedingAfterChange(nodes, after, k, op, now, ids);
      } else {
        HalfChangedConflicts(nodes, after, k, op, now, ids);
        ConflictIsInconsistent(after, op.name);
        InconsistentIsNotSeeded(after, k);
      }
    }
  }

  /** One server's part of a command that adds or changes a user. */
  lemma StepMixes(nodes: seq<Node>, nodes': seq<Node>, k: nat, op: Op, now: int, remote: Remote, ids: IdTable)
    requires Ready(nodes, op, ids) && !op.RemoveUser? && EnabledAt(nodes, k)
    requires Mixed(nodes, nodes', k, IdApply(ids, op, now).0)
    ensures var (after, ok) := OnServer(nodes', k, op, now, remote);
      && Mixed(nodes, after, k + 1, IdApply(ids, op, now).0)
      && (IdApply(ids, op, now).0 != ids ==>
        (Passes(op, remote) ==> ok) && (ok ==> Passes(op, remote) || Last(nodes, k)))
  {
    assert |nodes'| == |nodes|;
    hide TableOk, ApplyOn, AfterRemote, Ids, Mixed, Ready, IdApply, Last, Passes;
    RowWritten(nodes, nodes', k, op, now, ids);
    var (t, ok) := ApplyOn(nodes'[k].users, op, now);
    if op.ResetQuota? {
      ResetKeepsIds(nodes, nodes', k, op, now, ids);
    }
    if ok {
      var after := nodes'[k := nodes'[k].(users := t)];
      RemotePartMixes(nodes, after, k, op, now, FallsBack(nodes'[k].users, op, now), remote, ids);
    }
  }

  lemma InconsistentIsNotSeeded(nodes: seq<Node>, k: nat)
    requires k < |nodes| && !Consistent(Entries(nodes))
    ensures Materialize(nodes, k) == (nodes, false)
  {
  }

  lemma ResetKeepsIds(nodes: seq<Node>, nodes': seq<Node>, k: nat, op: Op, now: int, ids: IdTable)
    requires op.ResetQuota? && Ready(nodes, op, ids) && EnabledAt(nodes, k) &&
      Mixed(nodes, nodes', k, IdApply(ids, op, now).0)
    ensures IdApply(ids, op, now).0 == ids && Mixed(nodes, nodes', k + 1, ids)
  {
    hide TableOk, Ids, TagsStorable, IdEmailTaken;
    assert ids[op.name := ids[op.name]] == ids;
  }

  ghost predicate PassedBefore(nodes: seq<Node>, op: Op, remote: nat -> Remote, n: nat) {
    forall g: nat :: g < n && EnabledAt(nodes, g) ==> Passes(op, remote(g)) || Last(nodes, g)
  }

  /** The server where a command stopped. */
  ghost predicate StoppedAt(nodes: seq<Node>, after: seq<Node>, op: Op, remote: nat -> Remote, f: nat, ids: IdTable,
      ids': IdTable) {
    && EnabledAt(nodes, f) && Mixed(nodes, after, f + 1, ids')
    && (ids' != ids ==> !Passes(op, remote(f)) && PassedBefore(nodes, op, remote, f))
  }

  lemma MixedSkips(nodes: seq<Node>, after: seq<Node>, k: nat, ids: IdTable)
    requires k < |nodes| && Mixed(nodes, after, k, ids)
    ensures after[k].enabled == nodes[k].enabled
    ensures !nodes[k].enabled ==> Mixed(nodes, after, k + 1, ids)
  {
    hide TableOk, Ids;
  }

  lemma PassedStep(nodes: seq<Node>, op: Op, remote: nat -> Remote, n: nat)
    requires n < |nodes| && PassedBefore(nodes, op, remote, n)
    requires nodes[n].enabled ==> Passes(op, remote(n)) || Last(nodes, n)
    ensures PassedBefore(nodes, op, remote, n + 1)
  {
    hide Passes, Last;
  }

  /** A command that went through the first n servers, or stopped at one of them. */
  ghost predicate Outcome(nodes: seq<Node>, after: seq<Node>, ok: bool, op: Op, remote: nat -> Remote, n: nat,
      ids: IdTable, ids': IdTable)
  {
    if ok then Mixed(nodes, after, n, ids') && (ids' != ids ==> PassedBefore(nodes, op, remote, n))
    else exists f: nat :: StoppedAt(nodes, after, op, remote, f, ids, ids')
  }

  lemma OutcomeSteps(nodes: seq<Node>, before: seq<Node>, op: Op, now: int, remote: nat -> Remote, k: nat, ids: IdTable)
    requires Ready(nodes, op, ids) && !op.RemoveUser? && EnabledAt(nodes, k)
    requires Outcome(nodes, before, true, op, remote, k, ids, IdApply(ids, op, now).0)
    ensures k < |before|
    ensures var (after, ok) := OnServer(before, k, op, now, remote(k));
      Outcome(nodes, after, ok, op, remote, k + 1, ids, IdApply(ids, op, now).0)
  {
    assert k < |before|;
    hide TableOk, OnServer, Ids, IdApply, Last, Passes, Ready, Mixed, PassedBefore;
    StepMixes(nodes, before, k, op, now, remote(k), ids);
    var (after, ok) := OnServer(before, k, op, now, remote(k));
    if IdApply(ids, op, now).0 != ids && ok {
      PassedStep(nodes, op, remote, k);
    }
    if !ok {
      assert StoppedAt(nodes, after, op, remote, k, ids, IdApply(ids, op, now).0);
    }
  }

  lemma OutcomeSkips(nodes: seq<Node>, before: seq<Node>, op: Op, remote: nat -> Remote, k: nat, ids: IdTable,
      ids': IdTable)
    requires k < |nodes| && Outcome(nodes, before, true, op, remote, k, ids, ids')
    ensures k < |before| && before[k].enabled == nodes[k].enabled
    ensures !nodes[k].enabled ==> Outcome(nodes, before, true, op, remote, k + 1, ids, ids')
  {
    MixedSkips(nodes, before, k, ids');
    hide Last, Passes, Ready, PassedBefore, TableOk, Ids;
    if !nodes[k].enabled && ids' != ids {
      PassedStep(nodes, op, remote, k);
    }
  }

  lemma {:induction false} FanOutMixes(nodes: seq<Node>, op: Op, now: int, clock: nat -> int, remote: nat -> Remote,
      n: nat, ids: IdTable)
    requires Ready(nodes, op, ids) && !op.RemoveUser? && n <= |nodes| && forall i: nat :: clock(i) == now
    ensures var (after, ok) := FanOut(nodes, op, clock, remote, n);
      Outcome(nodes, after, ok, op, remote, n, ids, IdApply(ids, op, now).0)
  {
    hide OnServer, IdApply, Ready, Outcome;
    var ids' := IdApply(ids, op, now).0;
    if n == 0 {
      NothingDone(nodes, op, remote, ids, ids');
    } else {
      FanOutMixes(nodes, op, now, clock, remote, n - 1, ids);
      var (before, ok) := FanOut(nodes, op, clock, remote, n - 1);
      if ok {
        OutcomeSkips(nodes, before, op, remote, n - 1, ids, ids');
        if nodes[n - 1].enabled {
          OutcomeSteps(nodes, before, op, now, remote, n - 1, ids);
        }
      } else {
        StoppedStays(nodes, before, op, remote, n, ids, ids');
      }
    }
  }

  lemma NothingDone(nodes: seq<Node>, op: Op, remote: nat -> Remote, ids: IdTable, ids': IdTable)
    requires Ready(nodes, op, ids)
    ensures Outcome(nodes, nodes, true, op, remote, 0, ids, ids')
  {
    hide TableOk, Ids, GoodOp;
  }

  lemma StoppedStays(nodes: seq<Node>, after: seq<Node>, op: Op, remote: nat -> Remote, n: nat, ids: IdTable,
      ids': IdTable)
    requires n > 0 && Outcome(nodes, after, false, op, remote, n - 1, ids, ids')
    ensures Outcome(nodes, after, false, op, remote, n, ids, ids')
  {
  }

  /** The command leaves every identity as it is on every enabled server. */
  ghost predicate ChangesNoIdentity(nodes: seq<Node>, op: Op, now: int) {
    forall i :: EnabledAt(nodes, i) ==> Ids(ApplyOn(nodes[i].users, op, now).0) == Ids(nodes[i].users)
  }

  lemma NoIdentityChanges(nodes: seq<Node>, op: Op, now: int, ids: IdTable)
    requires Ready(nodes, op, ids)
    ensures ChangesNoIdentity(nodes, op, now) <==> IdApply(ids, op, now).0 == ids
  {
    hide ApplyOn, IdApply, Ids, TableOk;
    forall i | EnabledAt(nodes, i)
      ensures Ids(ApplyOn(nodes[i].users, op, now).0) == IdApply(ids, op, now).0 && Ids(nodes[i].users) == ids
    {
      ApplyRefines(nodes[i].users, op, now);
    }
  }

  lemma ResolvedIsReady(nodes: seq<Node>, op: Op, keysAgree: bool) returns (ids: IdTable)
    requires Healthy(nodes) && GoodOp(op) && Resolves(nodes, keysAgree) && Precheck(nodes, op)
    ensures Ready(nodes, op, ids)
  {
    hide TableOk, Entries, Consistent;
    var t: Table;
    ids, t := SharedIds(nodes);
    SomeEnabled(nodes);
    var i :| EnabledAt(nodes, i);
    IdsHas(nodes[i].users, op.name);
  }

  lemma MixedIsReplicated(nodes: seq<Node>, after: seq<Node>, k: nat, ids: IdTable, ids': IdTable)
    requires AllHave(nodes, ids) && Mixed(nodes, after, k, ids')
    requires ids' == ids || forall i :: EnabledAt(nodes, i) ==> i < k
    ensures Replicated(after)
  {
    hide TableOk, Ids;
    forall i | EnabledAt(after, i) ensures Ids(after[i].users) == ids' {
      assert EnabledAt(nodes, i);
    }
    AllHaveIsReplicated(after, ids');
  }

  lemma HalfMixedIsSplit(nodes: seq<Node>, after: seq<Node>, f: nat, ids: IdTable, ids': IdTable)
    requires AllHave(nodes, ids) && Mixed(nodes, after, f + 1, ids') && EnabledAt(nodes, f) &&
      !Last(nodes, f) && ids' != ids
    ensures !Replicated(after)
  {
    hide TableOk, Ids;
    var g :| EnabledAt(nodes, g) && g > f;
    assert EnabledAt(after, f) && EnabledAt(after, g) && after[g] == nodes[g];
  }

  lemma LastIsLatest(nodes: seq<Node>, f: int)
    requires Last(nodes, f)
    ensures forall g :: EnabledAt(nodes, g) && !Last(nodes, g) ==> g < f
  {
  }

  lemma OutcomeDecidesReplicas(nodes: seq<Node>, after: seq<Node>, ok: bool, op: Op, remote: nat -> Remote,
      ids: IdTable, ids': IdTable)
    requires AllHave(nodes, ids) && Outcome(nodes, after, ok, op, remote, |nodes|, ids, ids')
    ensures Replicated(after) <==>
      ids' == ids || forall f: nat :: EnabledAt(nodes, f) && !Last(nodes, f) ==> Passes(op, remote(f))
  {
    hide Last, Passes, AllHave, Mixed, Replicated;
    if ok {
      MixedIsReplicated(nodes, after, |nodes|, ids, ids');
    } else {
      var f: nat :| StoppedAt(nodes, after, op, remote, f, ids, ids');
      if ids' == ids {
        MixedIsReplicated(nodes, after, f + 1, ids, ids');
      } else if Last(nodes, f) {
        LastIsLatest(nodes, f);
        NobodyBehind(nodes, f);
        MixedIsReplicated(nodes, after, f + 1, ids, ids');
      } else {
        HalfMixedIsSplit(nodes, after, f, ids, ids');
      }
    }
  }

  lemma NobodyBehind(nodes: seq<Node>, f: int)
    requires Last(nodes, f)
    ensures forall g :: EnabledAt(nodes, g) ==> g < f + 1
  {
  }

  /** Which remote outcomes a command that adds or changes a user survives: the replicas stay equal
      exactly when it changes no identity, or every server but the last one either has no remote failure
      or is deployed anew for an added user. */
  lemma ChangeKeepsReplicasExactlyWhen(nodes: seq<Node>, op: Op, keysAgree: bool, now: int, remote: nat -> Remote)
    requires Healthy(nodes) && GoodOp(op) && !op.RemoveUser? && Resolves(nodes, keysAgree) && Precheck(nodes, op)
    ensures Replicated(Mutate(nodes, op, keysAgree, _ => now, remote).0) <==>
      ChangesNoIdentity(nodes, op, now) ||
      forall f: nat :: EnabledAt(nodes, f) && !Last(nodes, f) ==> Passes(op, remote(f))
  {
    hide TableOk, Ids, IdApply, Resolves, Precheck, FanOut, Passes, Healthy, ChangesNoIdentity, Last, Replicated,
         Outcome, AllHave, GoodOp;
    var ids := ResolvedIsReady(nodes, op, keysAgree);
    NoIdentityChanges(nodes, op, now, ids);
    var clock: nat -> int := _ => now;
    FanOutMixes(nodes, op, now, clock, remote, |nodes|, ids);
    var (after, ok) := FanOut(nodes, op, clock, remote, |nodes|);
    OutcomeDecidesReplicas(nodes, after, ok, op, remote, ids, IdApply(ids, op, now).0);
  }

  /** A date or a switch that reached only some servers blocks every further user command, until the
      rows are repaired by other means. */
  lemma HalfChangeBlocksCommands(nodes: seq<Node>, op: Op, keysAgree: bool, now: int, remote: nat -> Remote,
      next: Op, clock: nat -> int, nextRemote: nat -> Remote)
    requires Healthy(nodes) && GoodOp(op) && (op.SetEnabled? || op.SetExpiry?)
    requires Resolves(nodes, keysAgree) && Precheck(nodes, op)
    requires !Replicated(Mutate(nodes, op, keysAgree, _ => now, remote).0)
    ensures var after := Mutate(nodes, op, keysAgree, _ => now, remote).0;
      Mutate(after, next, true, clock, nextRemote) == (after, false)
  {
    var ids := ResolvedIsReady(nodes, op, keysAgree);
    hide TableOk, Ids, IdApply, Resolves, Precheck, FanOut, Mixed, Passes, Healthy, Conflict;
    var ids' := IdApply(ids, op, now).0;
    var same: nat -> int := _ => now;
    FanOutMixes(nodes, op, now, same, remote, |nodes|, ids);
    var (after, ok) := FanOut(nodes, op, same, remote, |nodes|);
    if ok {
      MixedIsReplicated(nodes, after, |nodes|, ids, ids');
    } else {
      var f: nat :| StoppedAt(nodes, after, op, remote, f, ids, ids');
      if ids' == ids || Last(nodes, f) {
        MixedIsReplicated(nodes, after, f + 1, ids, ids');
      } else {
        HalfChangedConflicts(nodes, after, f, op, now, ids);
        ConflictRefusesCommands(after, op.name, next, true, clock, nextRemote);
      }
    }
  }

  // ---------------------------------------------------------------------------------------------
  // Removing a user

  predicate Proceeds(remote: Remote) {
    remote.Fine? || remote == Redeployed(true)
  }

  /** Every enabled server before i let the command go on. */
  ghost predicate Reached(nodes: seq<Node>, remote: nat -> Remote, i: int) {
    forall g: nat :: g < i && EnabledAt(nodes, g) ==> Proceeds(remote(g))
  }

  /** The deploy that replaced the runtime call on server i found the user on another server: on a later
      one that is still to be done, or on an earlier one where a deploy had brought it back. */
  ghost predicate BroughtBack(nodes: seq<Node>, remote: nat -> Remote, i: nat) {
    remote(i).Redeployed? && (!Last(nodes, i) || exists g: nat :: g < i && EnabledAt(nodes, g) && remote(g).Redeployed?)
  }

  /** Server i ends without the user. */
  ghost predicate Gone(nodes: seq<Node>, remote: nat -> Remote, i: nat) {
    Reached(nodes, remote, i) && !BroughtBack(nodes, remote, i)
  }

  /** What the first n servers hold after a remove. */
  ghost predicate Removed(nodes: seq<Node>, after: seq<Node>, n: nat, name: string, remote: nat -> Remote,
      ids: IdTable)
  {
    && SameShape(nodes, after)
    && (forall i :: n <= i < |nodes| ==> after[i] == nodes[i])
    && (forall i: nat :: i < n && EnabledAt(nodes, i) ==>
          Ids(after[i].users) == if Gone(nodes, remote, i) then ids - {name} else ids)
    && (forall i :: 0 <= i < |nodes| ==> TableOk(after[i].users))
  }

  ghost predicate AllButOne(nodes: seq<Node>, name: string, ids: IdTable) {
    && (forall i :: EnabledAt(nodes, i) ==> Ids(nodes[i].users) == ids || Ids(nodes[i].users) == ids - {name})
    && (forall i :: 0 <= i < |nodes| ==> TableOk(nodes[i].users))
  }

  lemma AllButOneIdentity(nodes: seq<Node>, name: string, ids: IdTable, i: int, n: string)
    requires AllButOne(nodes, name, ids) && EnabledAt(nodes, i) && n in nodes[i].users
    ensures n in ids && nodes[i].users[n].identity == ids[n]
  {
    hide TableOk;
    assert Ids(nodes[i].users)[n] == nodes[i].users[n].identity;
  }

  lemma AllButOneIsCompatible(nodes: seq<Node>, name: string, ids: IdTable)
    requires AllButOne(nodes, name, ids)
    ensures Compatible(nodes)
  {
    hide TableOk, Ids;
    forall i, j, n | EnabledAt(nodes, i) && EnabledAt(nodes, j) && n in nodes[i].users && n in nodes[j].users
      ensures nodes[i].users[n].identity == nodes[j].users[n].identity
    {
      AllButOneIdentity(nodes, name, ids, i, n);
      AllButOneIdentity(nodes, name, ids, j, n);
    }
  }

  /** Server k just lost the user. */
  ghost predicate JustLost(nodes: seq<Node>, k: nat, name: string, ids: IdTable) {
    AllButOne(nodes, name, ids) && name in ids && EnabledAt(nodes, k) && Ids(nodes[k].users) == ids - {name}
  }

  lemma NobodyElseIsMissing(nodes: seq<Node>, k: nat, name: string, ids: IdTable)
    requires JustLost(nodes, k, name, ids)
    ensures name !in nodes[k].users
    ensures forall j, n :: EnabledAt(nodes, j) && n in nodes[j].users && n != name ==> n in nodes[k].users
  {
    hide TableOk;
    IdsHas(nodes[k].users, name);
    forall j, n | EnabledAt(nodes, j) && n in nodes[j].users && n != name ensures n in nodes[k].users {
      IdsHas(nodes[j].users, n);
      IdsHas(nodes[k].users, n);
    }
  }

  lemma SeedingBringsBack(nodes: seq<Node>, k: nat, g: nat, name: string, ids: IdTable)
    requires JustLost(nodes, k, name, ids) && EnabledAt(nodes, g) && Ids(nodes[g].users) == ids
    ensures var (after, ok) := Materialize(nodes, k);
      && ok && |after| == |nodes| && after == nodes[k := nodes[k].(users := after[k].users)]
      && TableOk(after[k].users) && Ids(after[k].users) == ids
  {
    hide TableOk, Materialize, Compatible;
    AllButOneIsCompatible(nodes, name, ids);
    NobodyElseIsMissing(nodes, k, name, ids);
    IdsHas(nodes[g].users, name);
    AllButOneIdentity(nodes, name, ids, g, name);
    forall n | n in nodes[k].users
      ensures n in nodes[g].users && nodes[k].users[n].identity == nodes[g].users[n].identity
    {
      IdsHas(nodes[k].users, n);
      IdsHas(nodes[g].users, n);
      AllButOneIdentity(nodes, name, ids, k, n);
      AllButOneIdentity(nodes, name, ids, g, n);
    }
    var u := SeedingRestores(nodes, k, g, name);
    TableStaysOk(nodes[k].users, nodes[g].users, name, u);
    assert Ids(nodes[k].users[name := u]) == Ids(nodes[k].users)[name := ids[name]] == ids;
  }

  lemma SeedingFindsNobody(nodes: seq<Node>, k: nat, name: string, ids: IdTable)
    requires JustLost(nodes, k, name, ids) && !exists g :: EnabledAt(nodes, g) && Ids(nodes[g].users) == ids
    ensures Materialize(nodes, k) == (nodes, true)
  {
    hide TableOk, Materialize, Compatible;
    AllButOneIsCompatible(nodes, name, ids);
    NobodyElseIsMissing(nodes, k, name, ids);
    forall j, n | EnabledAt(nodes, j) && n in nodes[j].users ensures n in nodes[k].users {
      IdsHas(nodes[j].users, n);
    }
    SeedingChangesNothing(nodes, k);
  }

  /** Seeding a server that just lost the user brings it back exactly when another server has it. */
  lemma SeedingAfterRemove(nodes: seq<Node>, k: nat, name: string, ids: IdTable)
    requires JustLost(nodes, k, name, ids)
    ensures var (after, ok) := Materialize(nodes, k);
      && ok && |after| == |nodes| && after == nodes[k := nodes[k].(users := after[k].users)] && TableOk(after[k].users)
      && Ids(after[k].users) ==
           if exists g :: EnabledAt(nodes, g) && Ids(nodes[g].users) == ids then ids else ids - {name}
  {
    hide TableOk, Materialize, Ids;
    if g :| EnabledAt(nodes, g) && Ids(nodes[g].users) == ids {
      SeedingBringsBack(nodes, k, g, name, ids);
    } else {
      SeedingFindsNobody(nodes, k, name, ids);
    }
  }

  ghost predicate Removable(nodes: seq<Node>, name: string, ids: IdTable) {
    && AllHave(nodes, ids) && name in ids && (forall i :: 0 <= i < |nodes| ==> TableOk(nodes[i].users))
  }

  lemma RemovedIsAllButOne(nodes: seq<Node>, after: seq<Node>, k: nat, name: string, remote: nat -> Remote,
      ids: IdTable, t: Table)
    requires Removable(nodes, name, ids) && EnabledAt(nodes, k) && Removed(nodes, after, k, name, remote, ids)
    requires TableOk(t) && Ids(t) == ids - {name}
    ensures AllButOne(after[k := after[k].(users := t)], name, ids)
  {
    hide TableOk, Ids, Gone;
    var next := after[k := after[k].(users := t)];
    forall i | EnabledAt(next, i) ensures Ids(next[i].users) == ids || Ids(next[i].users) == ids - {name} {
      assert EnabledAt(nodes, i);
    }
  }

  /** After the row of server k is gone, another server has the user exactly when a deploy brings it back. */
  lemma SomebodyHasUser(nodes: seq<Node>, after: seq<Node>, k: nat, name: string, remote: nat -> Remote, ids: IdTable,
      next: seq<Node>)
    requires Removable(nodes, name, ids) && EnabledAt(nodes, k) && Removed(nodes, after, k, name, remote, ids)
    requires Reached(nodes, remote, k) && remote(k).Redeployed?
    requires |next| == |after| && next == after[k := next[k]] && Ids(next[k].users) == ids - {name}
    ensures (exists g :: EnabledAt(next, g) && Ids(next[g].users) == ids) <==> BroughtBack(nodes, remote, k)
  {
    hide TableOk, Ids;
    if g :| EnabledAt(next, g) && Ids(next[g].users) == ids {
      assert name in ids && name !in ids - {name};
      assert g != k && EnabledAt(nodes, g);
    }
    if !Last(nodes, k) {
      var g :| EnabledAt(nodes, g) && g > k;
      assert EnabledAt(next, g) && next[g] == nodes[g];
    }
    if g: nat :| g < k && EnabledAt(nodes, g) && remote(g).Redeployed? {
      assert !Last(nodes, g) && !Gone(nodes, remote, g);
      assert EnabledAt(next, g);
    }
  }

  lemma RemoveOnServer(t: Table, name: string, now: int, ids: IdTable)
    requires TableOk(t) && Ids(t) == ids && name in ids
    ensures ApplyOn(t, RemoveUser(name), now) == (t - {name}, true)
    ensures TableOk(t - {name}) && Ids(t - {name}) == ids - {name}
  {
    hide TagsStorable, CleanName;
  }

  lemma RemovedGrows(nodes: seq<Node>, before: seq<Node>, after: seq<Node>, k: nat, name: string, remote: nat -> Remote,
      ids: IdTable)
    requires k < |nodes| && Removed(nodes, before, k, name, remote, ids)
    requires |after| == |before| && after == before[k := before[k].(users := after[k].users)] && TableOk(after[k].users)
    requires EnabledAt(nodes, k) ==> Ids(after[k].users) == if Gone(nodes, remote, k) then ids - {name} else ids
    ensures Removed(nodes, after, k + 1, name, remote, ids)
  {
    hide TableOk, Ids, Gone;
  }

  lemma StepRemoves(nodes: seq<Node>, before: seq<Node>, k: nat, name: string, now: int, remote: nat -> Remote,
      ids: IdTable)
    requires Removable(nodes, name, ids) && EnabledAt(nodes, k) && Removed(nodes, before, k, name, remote, ids)
    requires Reached(nodes, remote, k)
    ensures k < |before|
    ensures var (after, ok) := OnServer(before, k, RemoveUser(name), now, remote(k));
      Removed(nodes, after, k + 1, name, remote, ids) && ok == Proceeds(remote(k))
  {
    assert |before| == |nodes| && before[k] == nodes[k] && Ids(nodes[k].users) == ids;
    hide TableOk, Ids, ApplyOn, Materialize, Removed, Removable, Reached, Last;
    var t := before[k].users;
    RemoveOnServer(t, name, now, ids);
    var next := before[k := before[k].(users := t - {name})];
    if remote(k).Redeployed? {
      SomebodyHasUser(nodes, before, k, name, remote, ids, next);
      RemovedIsAllButOne(nodes, before, k, name, remote, ids, t - {name});
      assert EnabledAt(next, k);
      SeedingAfterRemove(next, k, name, ids);
    }
    var (after, ok) := OnServer(before, k, RemoveUser(name), now, remote(k));
    RemovedGrows(nodes, before, after, k, name, remote, ids);
  }

  /** A remove that went through the first n servers, or stopped at one of them. */
  ghost predicate RemoveOutcome(nodes: seq<Node>, after: seq<Node>, ok: bool, n: nat, name: string,
      remote: nat -> Remote, ids: IdTable)
  {
    if ok then Removed(nodes, after, n, name, remote, ids) && Reached(nodes, remote, n)
    else exists f: nat ::
      EnabledAt(nodes, f) && Removed(nodes, after, f + 1, name, remote, ids) && Reached(nodes, remote, f) &&
        !Proceeds(remote(f))
  }

  lemma RemoveStarts(nodes: seq<Node>, name: string, remote: nat -> Remote, ids: IdTable)
    requires Removable(nodes, name, ids)
    ensures RemoveOutcome(nodes, nodes, true, 0, name, remote, ids)
  {
    hide TableOk, Ids;
  }

  lemma RemoveStep(nodes: seq<Node>, before: seq<Node>, k: nat, name: string, now: int, remote: nat -> Remote,
      ids: IdTable)
    requires Removable(nodes, name, ids) && k < |nodes| && RemoveOutcome(nodes, before, true, k, name, remote, ids)
    ensures k < |before| && before[k].enabled == nodes[k].enabled
    ensures var (after, ok) := if before[k].enabled then OnServer(before, k, RemoveUser(name), now, remote(k))
      else (before, true);
      RemoveOutcome(nodes, after, ok, k + 1, name, remote, ids)
  {
    assert |before| == |nodes| && before[k] == nodes[k];
    if nodes[k].enabled {
      hide OnServer, TableOk, Ids, Removable, Removed, Proceeds;
      StepRemoves(nodes, before, k, name, now, remote, ids);
    } else {
      hide TableOk, Ids, Gone, Proceeds;
      assert before == before[k := before[k].(users := before[k].users)];
      RemovedGrows(nodes, before, before, k, name, remote, ids);
    }
  }

  lemma RemoveStopped(nodes: seq<Node>, after: seq<Node>, k: nat, name: string, remote: nat -> Remote, ids: IdTable)
    requires RemoveOutcome(nodes, after, false, k, name, remote, ids)
    ensures RemoveOutcome(nodes, after, false, k + 1, name, remote, ids)
  {
  }

  lemma {:induction false} FanOutRemoves(nodes: seq<Node>, name: string, clock: nat -> int, remote: nat -> Remote,
      n: nat, ids: IdTable)
    requires Removable(nodes, name, ids) && n <= |nodes|
    ensures var (after, ok) := FanOut(nodes, RemoveUser(name), clock, remote, n);
      RemoveOutcome(nodes, after, ok, n, name, remote, ids)
  {
    hide OnServer, Removable, RemoveOutcome;
    if n == 0 {
      RemoveStarts(nodes, name, remote, ids);
    } else {
      FanOutRemoves(nodes, name, clock, remote, n - 1, ids);
      var (before, ok) := FanOut(nodes, RemoveUser(name), clock, remote, n - 1);
      if ok {
        RemoveStep(nodes, before, n - 1, name, clock(n - 1), remote, ids);
      } else {
        RemoveStopped(nodes, before, n - 1, name, remote, ids);
      }
    }
  }

  lemma OutcomeDecides(nodes: seq<Node>, after: seq<Node>, ok: bool, name: string, remote: nat -> Remote, ids: IdTable)
    requires Removable(nodes, name, ids) && RemoveOutcome(nodes, after, ok, |nodes|, name, remote, ids)
    ensures SameShape(nodes, after) && (ok <==> Reached(nodes, remote, |nodes|))
    ensures forall i: nat :: EnabledAt(nodes, i) ==>
      Ids(after[i].users) == if Gone(nodes, remote, i) then ids - {name} else ids
  {
    hide TableOk, Ids, Proceeds, Last;
    if !ok {
      var f: nat :| EnabledAt(nodes, f) && Removed(nodes, after, f + 1, name, remote, ids) &&
        Reached(nodes, remote, f) &&
                    !Proceeds(remote(f));
      assert forall i: nat :: EnabledAt(nodes, i) && i > f ==> after[i] == nodes[i] && !Gone(nodes, remote, i);
    }
  }

  /** What a remove does to each server under every remote outcome, and when it reports success. */
  lemma RemoveReaches(nodes: seq<Node>, name: string, keysAgree: bool, clock: nat -> int, remote: nat -> Remote, i: nat)
    requires Healthy(nodes) && CleanName(name) && Resolves(nodes, keysAgree) && Precheck(nodes, RemoveUser(name))
    requires EnabledAt(nodes, i)
    ensures var (after, ok) := Mutate(nodes, RemoveUser(name), keysAgree, clock, remote);
      && SameShape(nodes, after)
      && (ok <==> forall g: nat :: EnabledAt(nodes, g) ==> Proceeds(remote(g)))
      && Ids(after[i].users) == (if Gone(nodes, remote, i) then Ids(nodes[i].users) - {name} else Ids(nodes[i].users))
  {
    var ids := ResolvedIsReady(nodes, RemoveUser(name), keysAgree);
    hide TableOk, Ids, Resolves, Precheck, FanOut, Proceeds, RemoveOutcome, Gone;
    FanOutRemoves(nodes, name, clock, remote, |nodes|, ids);
    var (after, ok) := FanOut(nodes, RemoveUser(name), clock, remote, |nodes|);
    OutcomeDecides(nodes, after, ok, name, remote, ids);
  }

  /** A remove that reports success has left the user on some server exactly when a server other than the
      last one was deployed anew. */
  lemma SuccessfulRemoveKeepsUserExactlyWhen(nodes: seq<Node>, name: string, keysAgree: bool, clock: nat -> int,
      remote: nat -> Remote)
    requires Healthy(nodes) && CleanName(name) && Resolves(nodes, keysAgree) && Precheck(nodes, RemoveUser(name))
    requires Mutate(nodes, RemoveUser(name), keysAgree, clock, remote).1
    ensures (exists i ::
      EnabledAt(nodes, i) && name in Mutate(nodes, RemoveUser(name), keysAgree, clock, remote).0[i].users)
      <==> exists f: nat :: EnabledAt(nodes, f) && !Last(nodes, f) && remote(f).Redeployed?
  {
    var after := Mutate(nodes, RemoveUser(name), keysAgree, clock, remote).0;
    assert |after| == |nodes|;
    hide Healthy, CleanName, Resolves, Ids, Mutate, Proceeds, Last;
    forall i: nat | EnabledAt(nodes, i) ensures name in after[i].users <==> BroughtBack(nodes, remote, i) {
      RemoveReaches(nodes, name, keysAgree, clock, remote, i);
      IdsHas(after[i].users, name);
      IdsHas(nodes[i].users, name);
      assert Reached(nodes, remote, i);
    }
    if i: nat :| EnabledAt(nodes, i) && BroughtBack(nodes, remote, i) && Last(nodes, i) {
      var g: nat :| g < i && EnabledAt(nodes, g) && remote(g).Redeployed?;
      EarlierIsNotLast(nodes, g, i);
    }
    if f: nat :| EnabledAt(nodes, f) && !Last(nodes, f) && remote(f).Redeployed? {
      assert BroughtBack(nodes, remote, f);
    }
  }

  lemma EarlierIsNotLast(nodes: seq<Node>, g: int, i: int)
    requires g < i && EnabledAt(nodes, i)
    ensures !Last(nodes, g)
  {
  }

  /** A remove keeps the replicas equal exactly when it takes the user from every server or from none. */
  lemma RemoveKeepsReplicasExactlyWhen(nodes: seq<Node>, name: string, keysAgree: bool, clock: nat -> int,
      remote: nat -> Remote)
    requires Healthy(nodes) && CleanName(name) && Resolves(nodes, keysAgree) && Precheck(nodes, RemoveUser(name))
    ensures Replicated(Mutate(nodes, RemoveUser(name), keysAgree, clock, remote).0) <==>
      forall i: nat, j: nat :: EnabledAt(nodes, i) && EnabledAt(nodes, j) ==>
        Gone(nodes, remote, i) == Gone(nodes, remote, j)
  {
    var ids := ResolvedIsReady(nodes, RemoveUser(name), keysAgree);
    hide Healthy, CleanName, Resolves, Ids, Mutate, Proceeds, Gone;
    var after := Mutate(nodes, RemoveUser(name), keysAgree, clock, remote).0;
    forall i: nat | EnabledAt(nodes, i)
      ensures EnabledAt(after, i) && Ids(after[i].users) == if Gone(nodes, remote, i) then ids - {name} else ids
    {
      RemoveReaches(nodes, name, keysAgree, clock, remote, i);
    }
    assert SameShape(nodes, after) by {
      var i :| EnabledAt(nodes, i);
      RemoveReaches(nodes, name, keysAgree, clock, remote, i);
    }
    assert ids - {name} != ids;
    if Replicated(after) {
      forall i: nat, j: nat | EnabledAt(nodes, i) && EnabledAt(nodes, j)
        ensures Gone(nodes, remote, i) == Gone(nodes, remote, j)
      {
        assert Ids(after[i].users) == Ids(after[j].users);
      }
    }
  }

  // ---------------------------------------------------------------------------------------------
  // Runs

  /** A command whose remote outcomes leave the replicas equal. */
  ghost predicate Harmless(nodes: seq<Node>, c: Command) {
    c.UserCommand? && Resolves(nodes, c.keysAgree) && Precheck(nodes, c.op) ==>
      if c.op.RemoveUser? then
        forall i: nat, j: nat :: EnabledAt(nodes, i) && EnabledAt(nodes, j) ==>
          Gone(nodes, c.remote, i) == Gone(nodes, c.remote, j)
      else
        ChangesNoIdentity(nodes, c.op, c.now) ||
        forall f: nat :: EnabledAt(nodes, f) && !Last(nodes, f) ==> Passes(c.op, c.remote(f))
  }

  lemma MutateKeepsTables(nodes: seq<Node>, op: Op, keysAgree: bool, now: int, remote: nat -> Remote)
    requires Healthy(nodes) && GoodOp(op) && Resolves(nodes, keysAgree) && Precheck(nodes, op)
    ensures var after := Mutate(nodes, op, keysAgree, _ => now, remote).0;
      forall i :: 0 <= i < |after| ==> TableOk(after[i].users)
  {
    var ids := ResolvedIsReady(nodes, op, keysAgree);
    hide TableOk, Ids, IdApply, Resolves, Precheck, FanOut, Passes, Replicated, Gone, Reached;
    var clock: nat -> int := _ => now;
    if op.RemoveUser? {
      FanOutRemoves(nodes, op.name, clock, remote, |nodes|, ids);
    } else {
      FanOutMixes(nodes, op, now, clock, remote, |nodes|, ids);
    }
  }

  lemma StepKeepsExactlyWhen(nodes: seq<Node>, c: Command)
    requires Healthy(nodes) && (c.UserCommand? ==> GoodOp(c.op))
    ensures Replicated(Step(nodes, c)) <==> Harmless(nodes, c)
    ensures Harmless(nodes, c) ==> Healthy(Step(nodes, c))
  {
    hide TableOk, Ids, Resolves, Precheck, FanOut, Passes, Replicated, Gone, ChangesNoIdentity, GoodOp, Last;
    match c
    case UserCommand(op, keysAgree, now, remote) =>
      if Resolves(nodes, keysAgree) && Precheck(nodes, op) {
        MutateKeepsTables(nodes, op, keysAgree, now, remote);
        if op.RemoveUser? {
          GoodName(op);
          RemoveKeepsReplicasExactlyWhen(nodes, op.name, keysAgree, _ => now, remote);
        } else {
          ChangeKeepsReplicasExactlyWhen(nodes, op, keysAgree, now, remote);
        }
      }
    case ServerAdd(name, peers, accepted) => AddServerKeeps(nodes, name, peers, accepted);
    case ServerCleanup(i, removeLocal) => if i < |nodes| { CleanupKeeps(nodes, i, removeLocal); }
  }

  lemma GoodName(op: Op)
    requires GoodOp(op)
    ensures CleanName(op.name)
  {
  }

  ghost predicate HarmlessAt(commands: seq<Command>, k: nat)
    requires k < |commands|
  {
    Harmless(Run([], commands[..k]), commands[k])
  }

  lemma PrefixStep(commands: seq<Command>, k: nat)
    requires k < |commands|
    ensures Run([], commands[..k + 1]) == Step(Run([], commands[..k]), commands[k])
  {
    hide Step;
    assert commands[..k + 1] == commands[..k] + [commands[k]];
    RunAppends([], commands[..k], [commands[k]]);
    assert [commands[k]][1..] == [];
  }

  lemma {:induction false} HarmlessRunIsHealthy(commands: seq<Command>, k: nat)
    requires k <= |commands| && forall i :: 0 <= i < |commands| && commands[i].UserCommand? ==> GoodOp(commands[i].op)
    requires forall i :: 0 <= i < k ==> HarmlessAt(commands, i)
    ensures Healthy(Run([], commands[..k]))
  {
    hide Step, Harmless, Healthy, GoodOp;
    if k == 0 {
      assert commands[..0] == [];
      NoServersAreHealthy();
    } else {
      HarmlessRunIsHealthy(commands, k - 1);
      PrefixStep(commands, k - 1);
      assert HarmlessAt(commands, k - 1);
      StepKeepsExactlyWhen(Run([], commands[..k - 1]), commands[k - 1]);
    }
  }

  lemma NoServersAreHealthy()
    ensures Healthy([])
  {
  }

  /** A run of commands with any remote outcomes keeps the enabled servers equal throughout exactly when
      each of its commands is harmless where it runs. */
  lemma RunStaysReplicatedExactlyWhen(commands: seq<Command>)
    requires forall i :: 0 <= i < |commands| && commands[i].UserCommand? ==> GoodOp(commands[i].op)
    ensures (forall k :: 0 <= k <= |commands| ==> Replicated(Run([], commands[..k]))) <==>
            (forall k :: 0 <= k < |commands| ==> HarmlessAt(commands, k))
  {
    hide Harmless, Replicated, Run, GoodOp, TableOk;
    if forall k :: 0 <= k < |commands| ==> HarmlessAt(commands, k) {
      forall k | 0 <= k <= |commands| ensures Replicated(Run([], commands[..k])) {
        HarmlessRunIsHealthy(commands, k);
      }
    } else {
      var k := FirstHarm(commands, |commands|);
      HarmlessRunIsHealthy(commands, k);
      StepKeepsExactlyWhen(Run([], commands[..k]), commands[k]);
      PrefixStep(commands, k);
      assert !Replicated(Run([], commands[..k + 1]));
    }
  }

  lemma {:induction false} FirstHarm(commands: seq<Command>, n: nat) returns (k: nat)
    requires n <= |commands| && exists i :: 0 <= i < n && !HarmlessAt(commands, i)
    ensures k < n && !HarmlessAt(commands, k) && forall i :: 0 <= i < k ==> HarmlessAt(commands, i)
  {
    hide HarmlessAt;
    if exists i :: 0 <= i < n - 1 && !HarmlessAt(commands, i) {
      k := FirstHarm(commands, n - 1);
    } else {
      k := n - 1;
    }
  }
}

