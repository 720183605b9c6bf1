/** All enabled servers keep the same users over every run of commands. */
module Replication {
  import opened Rows
  import opened Text
  import opened Sorting
  import opened Identities
  import opened Users

  type IdTable = map<string, Identity>

  // ---------------------------------------------------------------------------------------------
  // A command acts on identities alone

  predicate IdEmailTaken(ids: IdTable, name: string, email: string) {
    exists n :: n in ids && n != name && ids[n].email == email
  }

  function ChangedId(u: Identity, op: Op, now: int): Identity {
    match op
    case SetEnabled(_, on) => u.(enabled := on)
    case SetExpiry(_, expiry) => UserAfterExpiryUpdate(u, expiry, now).0
    case _ => u
  }

  function IdApply(ids: IdTable, op: Op, now: int): (IdTable, bool) {
    if op.AddUser? then
      if !op.valid || op.name in ids || IdEmailTaken(ids, op.name, op.user.identity.email) then (ids, false)
      else (ids[op.name := op.user.identity], TagsStorable(op.user.identity.tags))
    else if op.name !in ids then (ids, false)
    else if op.RemoveUser? then (ids - {op.name}, true)
    else if IdEmailTaken(ids, op.name, ids[op.name].email) then (ids, false)
    else (ids[op.name := ChangedId(ids[op.name], op, now)], TagsStorable(ids[op.name].tags))
  }

  lemma EmailsMatch(t: Table, name: string, email: string)
    ensures EmailTaken(t, name, email) <==> IdEmailTaken(Ids(t), name, email)
  {
    hide TagsStorable;
    if n :| n in t && n != name && t[n].identity.email == email {
      assert n in Ids(t) && Ids(t)[n].email == email;
    }
    if n :| n in Ids(t) && n != name && Ids(t)[n].email == email {
      assert n in t && t[n].identity.email == email;
    }
  }

  /** Quotas and blocks never decide what happens to identities. */
  lemma ApplyRefines(t: Table, op: Op, now: int)
    ensures var (t', ok) := ApplyOn(t, op, now);
      (Ids(t'), ok) == IdApply(Ids(t), op, now)
  {
    hide TagsStorable, EmailTaken, IdEmailTaken;
    if op.AddUser? {
      EmailsMatch(t, op.name, op.user.identity.email);
    } else if op.name in t {
      EmailsMatch(t, op.name, t[op.name].identity.email);
      assert Changed(t[op.name], op, now).identity == ChangedId(t[op.name].identity, op, now);
    }
    var t' := ApplyOn(t, op, now).0;
    assert Ids(t') == IdApply(Ids(t), op, now).0;
  }

  /** Each enabled server has the given identities. */
  ghost predicate AllHave(nodes: seq<Node>, ids: IdTable) {
    forall i :: EnabledAt(nodes, i) ==> Ids(nodes[i].users) == ids
  }

  ghost predicate SameShape(nodes: seq<Node>, nodes': seq<Node>) {
    |nodes'| == |nodes| && forall i :: 0 <= i < |nodes| ==>
      nodes'[i].enabled == nodes[i].enabled && nodes'[i].name == nodes[i].name
  }

  /** No remote call fails. */
  ghost predicate AllFine(remote: nat -> Remote) {
    forall i :: remote(i).Fine?
  }

  /** A command that succeeds has done its part on every enabled server, quotas and blocks included,
      and touched no other. */
  lemma {:induction false} FanOutReachesEveryServer(nodes: seq<Node>, op: Op, clock: nat -> int, remote: nat -> Remote,
      n: nat, i: nat)
    requires AllFine(remote)
    requires n <= |nodes| && i < |nodes| && FanOut(nodes, op, clock, remote, n).1
    ensures var nodes' := FanOut(nodes, op, clock, remote, n).0;
      nodes'[i] ==
        if i < n && nodes[i].enabled then nodes[i].(users := ApplyOn(nodes[i].users, op, clock(i)).0) else nodes[i]
    ensures i < n && nodes[i].enabled ==> ApplyOn(nodes[i].users, op, clock(i)).1
  {
    hide ApplyOn;
    if n > 0 {
      FanOutReachesEveryServer(nodes, op, clock, remote, n - 1, i);
      FanOutReachesEveryServer(nodes, op, clock, remote, n - 1, n - 1);
    }
  }

  /** When no server fails each enabled one ends with its own outcome. */
  lemma {:induction false} FanOutSucceeds(nodes: seq<Node>, op: Op, clock: nat -> int, remote: nat -> Remote, n: nat,
      ids: IdTable)
    requires AllFine(remote)
    requires n <= |nodes| && AllHave(nodes, ids)
    requires forall i: nat :: i < n && nodes[i].enabled ==> IdApply(ids, op, clock(i)).1
    ensures var (nodes', ok) := FanOut(nodes, op, clock, remote, n);
      && ok && SameShape(nodes, nodes')
      && (forall i: nat :: i < n && nodes[i].enabled ==> Ids(nodes'[i].users) == IdApply(ids, op, clock(i)).0)
      && forall i :: n <= i < |nodes| ==> nodes'[i] == nodes[i]
  {
    hide IdApply, ApplyOn, Ids;
    if n > 0 {
      FanOutSucceeds(nodes, op, clock, remote, n - 1, ids);
      if nodes[n - 1].enabled {
        assert EnabledAt(nodes, n - 1);
        ApplyRefines(nodes[n - 1].users, op, clock(n - 1));
      }
    }
  }

  /** Only server f changed, to the given identities. */
  ghost predicate OnlyAt(nodes: seq<Node>, nodes': seq<Node>, f: nat, ids: IdTable)
    requires f < |nodes| == |nodes'|
  {
    Ids(nodes'[f].users) == ids && forall i :: 0 <= i < |nodes| && i != f ==> nodes'[i] == nodes[i]
  }

  /** When every server would fail the command stops at the first enabled one. */
  lemma {:induction false} FanOutStops(nodes: seq<Node>, op: Op, clock: nat -> int, remote: nat -> Remote, n: nat,
      ids: IdTable)
    requires AllFine(remote)
    requires n <= |nodes| && AllHave(nodes, ids)
    requires forall i: nat :: i < n && nodes[i].enabled ==> !IdApply(ids, op, clock(i)).1
    ensures var (nodes', ok) := FanOut(nodes, op, clock, remote, n);
      && SameShape(nodes, nodes')
      && (ok ==> nodes' == nodes && forall i :: 0 <= i < n ==> !nodes[i].enabled)
      && (!ok ==> exists f: nat :: f < n && nodes[f].enabled && OnlyAt(nodes, nodes', f, IdApply(ids, op, clock(f)).0))
  {
    hide IdApply, ApplyOn, Ids;
    if n > 0 {
      FanOutStops(nodes, op, clock, remote, n - 1, ids);
      if FanOut(nodes, op, clock, remote, n - 1).1 && nodes[n - 1].enabled {
        assert EnabledAt(nodes, n - 1);
        ApplyRefines(nodes[n - 1].users, op, clock(n - 1));
      }
    }
  }

  // ---------------------------------------------------------------------------------------------
  // Tables stay clean

  lemma ApplyKeepsTable(t: Table, op: Op, now: int)
    requires TableOk(t) && GoodOp(op)
    ensures TableOk(ApplyOn(t, op, now).0)
  {
    hide TagsStorable, CleanName;
    if op.AddUser? {
    } else if op.name in t {
      var u := Changed(t[op.name], op, now);
      assert u.identity.email == t[op.name].identity.email && u.identity.tags == t[op.name].identity.tags;
    }
  }

  lemma {:induction false} FanOutKeepsTables(nodes: seq<Node>, op: Op, clock: nat -> int, remote: nat -> Remote, n: nat)
    requires AllFine(remote)
    requires n <= |nodes| && GoodOp(op) && forall i :: 0 <= i < |nodes| ==> TableOk(nodes[i].users)
    ensures forall i :: 0 <= i < |nodes| ==> TableOk(FanOut(nodes, op, clock, remote, n).0[i].users)
  {
    hide TableOk, GoodOp, ApplyOn;
    if n > 0 {
      FanOutKeepsTables(nodes, op, clock, remote, n - 1);
      var nodes' := FanOut(nodes, op, clock, remote, n - 1).0;
      ApplyKeepsTable(nodes'[n - 1].users, op, clock(n - 1));
    }
  }

  /** In a clean table an operation with storable tags that fails changes no identity. */
  lemma FailureChangesNothing(t: Table, op: Op, now: int)
    requires TableOk(t) && (op.AddUser? ==> TagsStorable(op.user.identity.tags))
    ensures var (ids', ok) := IdApply(Ids(t), op, now);
      ok || ids' == Ids(t)
  {
    hide TagsStorable, CleanName;
  }

  /** The identities all enabled servers share. */
  lemma SharedIds(nodes: seq<Node>) returns (ids: IdTable, t: Table)
    requires Healthy(nodes)
    ensures AllHave(nodes, ids) && TableOk(t) && Ids(t) == ids
  {
    hide TableOk, Ids;
    if i :| EnabledAt(nodes, i) {
      t := nodes[i].users;
      ids := Ids(t);
    } else {
      t := map[];
      ids := Ids(t);
      NoUsersOk();
    }
  }

  lemma NoUsersOk()
    ensures TableOk(map[])
  {
  }

  lemma AllHaveIsReplicated(nodes: seq<Node>, ids: IdTable)
    requires AllHave(nodes, ids)
    ensures Replicated(nodes)
  {
  }

  lemma MutateKeeps(nodes: seq<Node>, op: Op, keysAgree: bool, now: int, remote: nat -> Remote)
    requires AllFine(remote)
    requires Healthy(nodes) && GoodOp(op)
    ensures Healthy(Mutate(nodes, op, keysAgree, _ => now, remote).0)
  {
    hide TableOk, Ids, IdApply, ApplyOn, TagsStorable, CleanName;
    var clock: nat -> int := _ => now;
    if Resolves(nodes, keysAgree) && Precheck(nodes, op) {
      var ids, t := SharedIds(nodes);
      FailureChangesNothing(t, op, now);
      FanOutKeepsTables(nodes, op, clock, remote, |nodes|);
      var nodes' := FanOut(nodes, op, clock, remote, |nodes|).0;
      if IdApply(ids, op, now).1 {
        FanOutSucceeds(nodes, op, clock, remote, |nodes|, ids);
        assert AllHave(nodes', IdApply(ids, op, now).0);
      } else {
        FanOutStops(nodes, op, clock, remote, |nodes|, ids);
        assert AllHave(nodes', ids);
      }
    }
  }

  // ---------------------------------------------------------------------------------------------
  // Adding a server

  /** Clean tables that agree on the users they share. */
  ghost predicate Compatible(nodes: seq<Node>) {
    && (forall i :: 0 <= i < |nodes| ==> TableOk(nodes[i].users))
    && forall i, j, n :: EnabledAt(nodes, i) && EnabledAt(nodes, j) && n in nodes[i].users && n in nodes[j].users ==>
      nodes[i].users[n].identity == nodes[j].users[n].identity
  }

  lemma HealthyIsCompatible(nodes: seq<Node>)
    requires Healthy(nodes)
    ensures Compatible(nodes)
  {
    hide TableOk;
    forall i, j, n | EnabledAt(nodes, i) && EnabledAt(nodes, j) && n in nodes[i].users && n in nodes[j].users
      ensures nodes[i].users[n].identity == nodes[j].users[n].identity
    {
      assert Ids(nodes[i].users)[n] == Ids(nodes[j].users)[n];
    }
  }

  lemma EntryIsClean(nodes: seq<Node>, e: Entry) returns (i: int)
    requires Compatible(nodes) && e in Entries(nodes)
    ensures EnabledAt(nodes, i) && e.username in nodes[i].users && e.user == nodes[i].users[e.username]
    ensures Key(e) == e.username != "" && TagsStorable(e.user.identity.tags)
  {
    hide TagsStorable, Entries;
    EntriesMembers(nodes, e);
    i :| EnabledAt(nodes, i) && e.username in nodes[i].users && e.user == nodes[i].users[e.username];
    assert TableOk(nodes[i].users);
  }

  /** Servers with the same users never report a conflict. */
  lemma CompatibleIsConsistent(nodes: seq<Node>)
    requires Compatible(nodes)
    ensures Consistent(Entries(nodes))
  {
    hide Entries, Canon, TableOk, Trim;
    var l := Entries(nodes);
    forall a, b | 0 <= a < |l| && 0 <= b < |l| && SameUser(l[a], l[b])
      ensures Canon(l[a].user.identity) == Canon(l[b].user.identity)
    {
      var i := EntryIsClean(nodes, l[a]);
      var j := EntryIsClean(nodes, l[b]);
    }
  }

  lemma CanonicalUser(nodes: seq<Node>, n: string)
    requires Compatible(nodes)
    ensures var c := Canonical(Entries(nodes));
      && (n in c <==> exists i :: EnabledAt(nodes, i) && n in nodes[i].users)
      && (n in c ==> c[n].username == n && TagsStorable(c[n].user.identity.tags))
      && (n in c ==> forall i :: EnabledAt(nodes, i) && n in nodes[i].users ==>
        c[n].user.identity == nodes[i].users[n].identity)
  {
    hide Entries, TableOk, Trim, TagsStorable, First;
    var l := Entries(nodes);
    FirstFinds(l, n);
    if n in Canonical(l) {
      var f :| 0 <= f < |l| && Key(l[f]) == n && First(l, n).value == l[f];
      var i := EntryIsClean(nodes, l[f]);
      assert n in nodes[i].users;
    }
    if i :| EnabledAt(nodes, i) && n in nodes[i].users {
      var e := Entry(n, nodes[i].users[n]);
      EntriesMembers(nodes, e);
      var j := EntryIsClean(nodes, e);
      assert Key(e) == n && e in l;
    }
  }

  /** Canonical users that can all be stored next to each other. */
  ghost predicate Storable(c: map<string, Entry>) {
    && (forall n :: n in c ==> CleanName(n) && c[n].username == n && TagsStorable(c[n].user.identity.tags))
    && forall n, m :: n in c && m in c && c[n].user.identity.email == c[m].user.identity.email ==> n == m
  }

  lemma EmailIsFree(c: map<string, Entry>, t: Table, name: string)
    requires Storable(c) && name in c && name !in t
    requires forall n :: n in t ==> n in c && t[n].identity == c[n].user.identity
    ensures !EmailTaken(t, name, c[name].user.identity.email)
  {
    hide TagsStorable, CleanName;
  }

  lemma {:induction false} SeedEmpty(c: map<string, Entry>, names: seq<string>)
    requires Storable(c) && NoRepeats(names) && forall n :: n in names ==> n in c
    ensures var (t, ok) := Seed(map[], c, names);
      ok && (forall n :: n in t <==> n in names) && forall n :: n in t ==>
        t[n] == Copied(c[n].user).(quotaEnabled := true)
  {
    hide TagsStorable, CleanName, Canon, Applied, StoreUpdate, EmailTaken;
    if names != [] {
      var fewer := names[..|names| - 1];
      SeedEmpty(c, fewer);
      assert names == fewer + [names[|names| - 1]];
      var t := Seed(map[], c, fewer).0;
      var name := names[|names| - 1];
      assert name !in t;
      EmailIsFree(c, t, name);
    }
  }

  ghost predicate Widened(nodes: seq<Node>, wider: seq<Node>, p: nat) {
    p < |wider| && |nodes| == |wider| - 1 && wider[p].enabled && wider[p].users == map[] &&
    nodes == wider[..p] + wider[p + 1..]
  }

  function Before(i: int, p: int): int {
    if i < p then i else i - 1
  }

  /** The servers of a widened list other than the new one are the old servers. */
  lemma OldServer(nodes: seq<Node>, wider: seq<Node>, p: nat, i: int)
    requires Widened(nodes, wider, p) && EnabledAt(wider, i) && i != p
    ensures EnabledAt(nodes, Before(i, p)) && nodes[Before(i, p)] == wider[i]
  {
  }

  lemma WidenedIsCompatible(nodes: seq<Node>, wider: seq<Node>, p: nat)
    requires Healthy(nodes) && Widened(nodes, wider, p)
    ensures Compatible(wider)
  {
    hide Healthy, TableOk;
    HealthyIsCompatible(nodes);
    NoUsersOk();
    forall i | 0 <= i < |wider| ensures TableOk(wider[i].users) {
      if i != p {
        assert wider[i] == nodes[Before(i, p)];
      }
    }
    forall i, j, n | EnabledAt(wider, i) && EnabledAt(wider, j) && n in wider[i].users && n in wider[j].users
      ensures wider[i].users[n].identity == wider[j].users[n].identity
    {
      OldServer(nodes, wider, p, i);
      OldServer(nodes, wider, p, j);
    }
  }

  lemma CanonicalIsStorable(nodes: seq<Node>, wider: seq<Node>, p: nat)
    requires Healthy(nodes) && Widened(nodes, wider, p)
    ensures Storable(Canonical(Entries(wider)))
    ensures forall i :: EnabledAt(wider, i) && i != p ==> Canonical(Entries(wider)).Keys == wider[i].users.Keys
  {
    hide Entries, TagsStorable, Canonical;
    WidenedIsCompatible(nodes, wider, p);
    var c := Canonical(Entries(wider));
    forall i, n | EnabledAt(wider, i) && i != p ensures n in c <==> n in wider[i].users {
      CanonicalUser(wider, n);
      OldServer(nodes, wider, p, i);
      if n in c {
        var j :| EnabledAt(wider, j) && n in wider[j].users;
        OldServer(nodes, wider, p, j);
        assert Ids(nodes[Before(i, p)].users) == Ids(nodes[Before(j, p)].users);
        assert n in Ids(nodes[Before(j, p)].users);
      }
    }
    forall n, m | n in c && m in c && c[n].user.identity.email == c[m].user.identity.email ensures n == m {
      CanonicalUser(wider, n);
      CanonicalUser(wider, m);
      var i :| EnabledAt(wider, i) && n in wider[i].users;
      assert i != p && m in wider[i].users;
      assert TableOk(wider[i].users);
    }
    forall n | n in c ensures CleanName(n) && c[n].username == n && TagsStorable(c[n].user.identity.tags) {
      CanonicalUser(wider, n);
      var i :| EnabledAt(wider, i) && n in wider[i].users;
      assert TableOk(wider[i].users);
    }
  }

  lemma MaterializeKeeps(nodes: seq<Node>, wider: seq<Node>, p: nat)
    requires Healthy(nodes) && Widened(nodes, wider, p)
    ensures Materialize(wider, p).1 && Healthy(Materialize(wider, p).0)
  {
    hide Entries, TagsStorable, Canonical, CleanName, EnabledAt;
    WidenedIsCompatible(nodes, wider, p);
    CompatibleIsConsistent(wider);
    CanonicalIsStorable(nodes, wider, p);
    var c := Canonical(Entries(wider));
    OrderedItems(c.Keys);
    SeedEmpty(c, Ordered(c.Keys));
    var t := Seed(map[], c, Ordered(c.Keys)).0;
    SeededIsHealthy(nodes, wider, p, c, t);
  }

  lemma SeededIsHealthy(nodes: seq<Node>, wider: seq<Node>, p: nat, c: map<string, Entry>, t: Table)
    requires Healthy(nodes) && Widened(nodes, wider, p) && c == Canonical(Entries(wider)) && Storable(c)
    requires forall i :: EnabledAt(wider, i) && i != p ==> c.Keys == wider[i].users.Keys
    requires t.Keys == c.Keys && forall n :: n in t ==> t[n] == Copied(c[n].user).(quotaEnabled := true)
    ensures Healthy(wider[p := wider[p].(users := t)])
  {
    hide Entries, TagsStorable, Canonical, CleanName;
    WidenedIsCompatible(nodes, wider, p);
    var done := wider[p := wider[p].(users := t)];
    forall i | EnabledAt(wider, i) && i != p ensures Ids(wider[i].users) == Ids(t) {
      forall n | n in t ensures Ids(wider[i].users)[n] == Ids(t)[n] {
        CanonicalUser(wider, n);
      }
    }
    forall i | EnabledAt(done, i) ensures Ids(done[i].users) == Ids(t) {
      if i != p {
        assert EnabledAt(wider, i);
      }
    }
    AllHaveIsReplicated(done, Ids(t));
    TablesStayOk(nodes, wider, p, done, t);
  }

  lemma TablesStayOk(nodes: seq<Node>, wider: seq<Node>, p: nat, done: seq<Node>, t: Table)
    requires Compatible(wider) && p < |wider| && done == wider[p := wider[p].(users := t)] && TableOk(t)
    ensures forall i :: 0 <= i < |done| ==> TableOk(done[i].users)
  {
    hide TableOk;
  }

  lemma AddServerKeeps(nodes: seq<Node>, name: string, peers: bool, accepted: bool)
    requires Healthy(nodes)
    ensures Healthy(AddServer(nodes, name, peers, accepted).0)
    ensures AddServer(nodes, name, peers, accepted).1 <==> accepted
  {
    hide Entries, Healthy, Materialize;
    HealthyIsCompatible(nodes);
    CompatibleIsConsistent(nodes);
    if accepted {
      var p := Place(nodes, name);
      var wider := nodes[..p] + [Node(name, true, map[])] + nodes[p..];
      assert wider[..p] + wider[p + 1..] == nodes;
      MaterializeKeeps(nodes, wider, p);
    }
  }

  lemma CleanupKeeps(nodes: seq<Node>, i: nat, removeLocal: bool)
    requires Healthy(nodes) && i < |nodes|
    ensures Healthy(Cleanup(nodes, i, removeLocal))
  {
    hide TableOk, Ids;
    var nodes' := Cleanup(nodes, i, removeLocal);
    forall j | 0 <= j < |nodes'|
      ensures exists k ::
        0 <= k < |nodes| && nodes[k].users == nodes'[j].users && (nodes'[j].enabled ==> nodes[k].enabled)
    {
      var k := if removeLocal && j >= i then j + 1 else j;
      assert nodes[k].users == nodes'[j].users;
    }
    forall j, k | EnabledAt(nodes', j) && EnabledAt(nodes', k) ensures Ids(nodes'[j].users) == Ids(nodes'[k].users) {
      var a :| 0 <= a < |nodes| && nodes[a].users == nodes'[j].users && nodes[a].enabled;
      var b :| 0 <= b < |nodes| && nodes[b].users == nodes'[k].users && nodes[b].enabled;
      assert EnabledAt(nodes, a) && EnabledAt(nodes, b);
    }
  }

  // ---------------------------------------------------------------------------------------------
  // Runs

  /** A user command without a remote failure. */
  ghost predicate GoodCommand(c: Command) {
    c.UserCommand? ==> GoodOp(c.op) && AllFine(c.remote)
  }

  lemma {:induction false} RunKeeps(nodes: seq<Node>, commands: seq<Command>)
    requires Healthy(nodes) && forall c :: c in commands ==> GoodCommand(c)
    ensures Healthy(Run(nodes, commands))
    decreases |commands|
  {
    hide Healthy, Mutate, AddServer, Cleanup, GoodOp;
    if commands != [] {
      assert GoodCommand(commands[0]);
      match commands[0] {
        case UserCommand(op, keysAgree, now, remote) => MutateKeeps(nodes, op, keysAgree, now, remote);
        case ServerAdd(name, peers, accepted) => AddServerKeeps(nodes, name, peers, accepted);
        case ServerCleanup(i, removeLocal) => if i < |nodes| { CleanupKeeps(nodes, i, removeLocal); }
      }
      RunKeeps(Step(nodes, commands[0]), commands[1..]);
    }
  }

  lemma {:induction false} RunAppends(nodes: seq<Node>, a: seq<Command>, b: seq<Command>)
    ensures Run(nodes, a + b) == Run(Run(nodes, a), b)
    decreases |a|
  {
    hide Step;
    if a == [] {
      assert a + b == b;
    } else {
      RunAppends(Step(nodes, a[0]), a[1..], b);
      assert (a + b)[1..] == a[1..] + b && (a + b)[0] == a[0];
    }
  }

  /** After every run of commands all enabled servers hold the same users, so resolving canonical
      users never reports a conflict. */
  lemma ReplicasNeverConflict(commands: seq<Command>)
    requires forall c :: c in commands ==> GoodCommand(c)
    ensures Replicated(Run([], commands)) && Consistent(Entries(Run([], commands)))
  {
    hide Entries, Run, TableOk, Ids;
    RunKeeps([], commands);
    HealthyIsCompatible(Run([], commands));
    CompatibleIsConsistent(Run([], commands));
  }

  // ---------------------------------------------------------------------------------------------
  // Exactly when one command keeps the replicas equal

  lemma {:induction false} SomeEnabled(nodes: seq<Node>)
    ensures EnabledCount(nodes) > 0 <==> exists i :: EnabledAt(nodes, i)
  {
    if nodes != [] {
      var fewer := nodes[..|nodes| - 1];
      SomeEnabled(fewer);
      if i :| EnabledAt(fewer, i) {
        assert EnabledAt(nodes, i);
      }
      if nodes[|nodes| - 1].enabled {
        assert EnabledAt(nodes, |nodes| - 1);
      }
      if i :| EnabledAt(nodes, i) {
        assert i < |nodes| - 1 ==> EnabledAt(fewer, i);
      }
    }
  }

  lemma {:induction false} AnotherEnabled(nodes: seq<Node>, f: int)
    requires EnabledAt(nodes, f)
    ensures EnabledCount(nodes) > 1 <==> exists g :: g != f && EnabledAt(nodes, g)
  {
    var fewer := nodes[..|nodes| - 1];
    if f == |nodes| - 1 {
      SomeEnabled(fewer);
      if g :| EnabledAt(fewer, g) {
        assert EnabledAt(nodes, g);
      }
      if g :| g != f && EnabledAt(nodes, g) {
        assert EnabledAt(fewer, g);
      }
    } else {
      assert EnabledAt(fewer, f);
      SomeEnabled(fewer);
      AnotherEnabled(fewer, f);
      if g :| g != f && EnabledAt(fewer, g) {
        assert EnabledAt(nodes, g);
      }
      if nodes[|nodes| - 1].enabled {
        assert EnabledAt(nodes, |nodes| - 1);
      }
      if g :| g != f && EnabledAt(nodes, g) {
        assert g < |nodes| - 1 ==> EnabledAt(fewer, g);
      }
    }
  }

  /** A tag given twice breaks replication: the first server keeps the user its tag sync refused, and
      the command stops there. It does no harm only with one enabled server or a taken email. */
  lemma AddKeepsReplicasExactlyWhen(nodes: seq<Node>, name: string, user: User, keysAgree: bool, now: int,
      remote: nat -> Remote)
    requires AllFine(remote)
    requires Healthy(nodes) && Resolves(nodes, keysAgree) && Precheck(nodes, AddUser(name, user, true))
    ensures Replicated(Mutate(nodes, AddUser(name, user, true), keysAgree, _ => now, remote).0) <==>
      TagsStorable(user.identity.tags) || EnabledCount(nodes) == 1 ||
      exists i :: EnabledAt(nodes, i) && EmailTaken(nodes[i].users, name, user.identity.email)
  {
    hide TableOk, TagsStorable, EmailTaken, IdEmailTaken, ApplyOn, Ids, Consistent, Entries;
    var op, clock: nat -> int := AddUser(name, user, true), _ => now;
    var ids, t := SharedIds(nodes);
    SomeEnabled(nodes);
    var e :| EnabledAt(nodes, e);
    IdsHas(nodes[e].users, name);
    forall i | EnabledAt(nodes, i)
      ensures EmailTaken(nodes[i].users, name, user.identity.email) <==> IdEmailTaken(ids, name, user.identity.email)
    {
      EmailsMatch(nodes[i].users, name, user.identity.email);
    }
    var nodes' := FanOut(nodes, op, clock, remote, |nodes|).0;
    if IdApply(ids, op, now).1 {
      FanOutSucceeds(nodes, op, clock, remote, |nodes|, ids);
      AllHaveIsReplicated(nodes', IdApply(ids, op, now).0);
    } else {
      FanOutStops(nodes, op, clock, remote, |nodes|, ids);
      var f: nat :| f < |nodes| && nodes[f].enabled && OnlyAt(nodes, nodes', f, IdApply(ids, op, now).0);
      OneChanged(nodes, nodes', f, ids, IdApply(ids, op, now).0);
    }
  }

  lemma IdsHas(t: Table, name: string)
    ensures name in Ids(t) <==> name in t
  {
  }

  lemma OneChanged(nodes: seq<Node>, nodes': seq<Node>, f: nat, ids: IdTable, ids': IdTable)
    requires AllHave(nodes, ids) && EnabledAt(nodes, f) && SameShape(nodes, nodes') && OnlyAt(nodes, nodes', f, ids')
    ensures Replicated(nodes') <==> ids' == ids || EnabledCount(nodes) == 1
  {
    hide Ids;
    SomeEnabled(nodes);
    AnotherEnabled(nodes, f);
    if g :| g != f && EnabledAt(nodes, g) {
      assert EnabledAt(nodes', g) && EnabledAt(nodes', f);
      assert Ids(nodes'[g].users) == ids;
      if ids == ids' {
        AllHaveIsReplicated(nodes', ids);
      }
    } else {
      assert forall i :: EnabledAt(nodes', i) ==> i == f by {
        forall i | EnabledAt(nodes', i) ensures i == f {
          assert EnabledAt(nodes, i);
        }
      }
    }
  }

  ghost predicate SameSide(nodes: seq<Node>, expiry: int, clock: nat -> int) {
    forall i: nat, j: nat :: EnabledAt(nodes, i) && EnabledAt(nodes, j) ==> (expiry > clock(i) <==> expiry > clock(j))
  }

  /** Setting an expiry date reads the clock anew on each server. The replicas stay equal exactly
      when the user is enabled already or all readings fall on the same side of the cutoff. */
  lemma ExpiryKeepsReplicasExactlyWhen(nodes: seq<Node>, name: string, expiry: Option<int>, keysAgree: bool,
      clock: nat -> int, remote: nat -> Remote)
    requires AllFine(remote)
    requires Healthy(nodes) && Resolves(nodes, keysAgree) && Precheck(nodes, SetExpiry(name, expiry))
    ensures var (nodes', ok) := Mutate(nodes, SetExpiry(name, expiry), keysAgree, clock, remote);
      ok && (Replicated(nodes') <==>
        expiry.None? || SameSide(nodes, expiry.value, clock) ||
        exists i :: EnabledAt(nodes, i) && name in nodes[i].users && nodes[i].users[name].identity.enabled)
  {
    hide TableOk, Consistent, Entries, ApplyOn, EmailTaken, FanOut;
    var op := SetExpiry(name, expiry);
    var ids, t := SharedIds(nodes);
    SomeEnabled(nodes);
    var e :| EnabledAt(nodes, e);
    assert name in nodes[e].users && name in ids && Ids(nodes[e].users) == ids;
    assert ids[name] == nodes[e].users[name].identity;
    CleanIds(t, name);
    FanOutSucceeds(nodes, op, clock, remote, |nodes|, ids);
    var nodes' := FanOut(nodes, op, clock, remote, |nodes|).0;
    forall i | EnabledAt(nodes, i) ensures name in nodes[i].users && nodes[i].users[name].identity == ids[name] {
      assert Ids(nodes[i].users)[name] == nodes[i].users[name].identity;
    }
    ExpiryOutcomes(nodes, nodes', op, clock, ids);
  }

  lemma CleanIds(t: Table, name: string)
    requires TableOk(t) && name in t
    ensures !IdEmailTaken(Ids(t), name, t[name].identity.email) && TagsStorable(t[name].identity.tags)
  {
    hide TagsStorable, CleanName;
  }

  lemma ExpiryOutcomes(nodes: seq<Node>, nodes': seq<Node>, op: Op, clock: nat -> int, ids: IdTable)
    requires op.SetExpiry? && op.name in ids && SameShape(nodes, nodes')
    requires forall i: nat :: i < |nodes| && nodes[i].enabled ==>
      Ids(nodes'[i].users) == ids[op.name := ChangedId(ids[op.name], op, clock(i))]
    ensures Replicated(nodes') <==> op.expiry.None? || ids[op.name].enabled || SameSide(nodes, op.expiry.value, clock)
  {
    hide Ids;
    if Replicated(nodes') && op.expiry.Some? && !ids[op.name].enabled {
      forall i: nat, j: nat | EnabledAt(nodes, i) && EnabledAt(nodes, j)
        ensures op.expiry.value > clock(i) <==> op.expiry.value > clock(j)
      {
        assert EnabledAt(nodes', i) && EnabledAt(nodes', j);
        assert Ids(nodes'[i].users)[op.name] == Ids(nodes'[j].users)[op.name];
      }
    }
    if op.expiry.None? || ids[op.name].enabled || SameSide(nodes, op.expiry.value, clock) {
      forall i, j | EnabledAt(nodes', i) && EnabledAt(nodes', j) ensures Ids(nodes'[i].users) == Ids(nodes'[j].users) {
        assert EnabledAt(nodes, i) && EnabledAt(nodes, j);
        assert ChangedId(ids[op.name], op, clock(i)) == ChangedId(ids[op.name], op, clock(j));
      }
    }
  }
}
