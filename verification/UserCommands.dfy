/** The user commands as they run: loops over servers and rows. */
module UserCommands {
  import opened Rows
  import opened Text
  import opened Sorting
  import opened Identities
  import opened Users

  method ListUsers(t: Table) returns (l: seq<Entry>)
    ensures l == Listing(t)
  {
    var names := SortSet(t.Keys);
    OrderedItems(t.Keys);
    l := [];
    for i := 0 to |names|
      invariant |l| == i && forall j :: 0 <= j < i ==> names[j] in t && l[j] == Entry(names[j], t[names[j]])
    {
      l := l + [Entry(names[i], t[names[i]])];
    }
  }

  /** Copies canonical users to one server: differing ones are corrected, missing ones added. */
  method SeedTable(current: Table, canonical: map<string, Entry>, names: seq<string>) returns (t: Table, ok: bool)
    requires forall n :: n in names ==> n in canonical
    ensures (t, ok) == Seed(current, canonical, names)
  {
    hide StoreAdd, StoreUpdate, Canon, Applied;
    t := current;
    for k := 0 to |names|
      invariant Seed(current, canonical, names[..k]) == (t, true)
    {
      assert names[..k + 1][..k] == names[..k];
      var name := names[k];
      var want := canonical[name];
      if name in current {
        var identity, changed := ApplyCanonicalIdentity(current[name].identity, want.user.identity);
        if !changed {
          continue;
        }
        var stored := StoreUpdate(t, name, current[name].(identity := identity));
        t, ok := stored.0, stored.1;
      } else {
        var stored := StoreAdd(t, want.username, Copied(want.user));
        t, ok := stored.0, stored.1;
      }
      if !ok {
        SeedFailed(current, canonical, names, k + 1);
        return;
      }
    }
    assert names[..|names|] == names;
    ok := true;
  }

  class Fleet {
    /** The servers in the order of their names. */
    var nodes: seq<Node>

    constructor ()
      ensures nodes == []
    {
      nodes := [];
    }

    /** The users of all enabled servers, and the number of those servers. */
    method EnabledUsers() returns (l: seq<Entry>, count: nat)
      ensures l == Entries(nodes) && count == EnabledCount(nodes)
    {
      hide Listing;
      l, count := [], 0;
      for i := 0 to |nodes|
        invariant l == Entries(nodes[..i]) && count == EnabledCount(nodes[..i])
      {
        assert nodes[..i + 1][..i] == nodes[..i];
        if !nodes[i].enabled {
          continue;
        }
        var users := ListUsers(nodes[i].users);
        l, count := l + users, count + 1;
      }
      assert nodes[..|nodes|] == nodes;
    }

    method ResolveUserMutationServers(keysAgree: bool) returns (ok: bool)
      ensures ok <==> Resolves(nodes, keysAgree)
    {
      hide Entries, Consistent;
      var l, count := EnabledUsers();
      if count == 0 {
        return false;
      }
      if count > 1 {
        if !keysAgree {
          return false;
        }
        var canonical;
        ok, canonical := CanonicalUsersFromServers(l);
        return;
      }
      ok := true;
    }

    /** Writes the users of one server back. */
    method Write(i: nat, t: Table)
      requires i < |nodes|
      modifies this
      ensures nodes == old(nodes)[i := old(nodes)[i].(users := t)]
    {
      nodes := nodes[i := nodes[i].(users := t)];
    }

    method MaterializeCanonicalUsersOnServer(i: nat) returns (ok: bool)
      requires i < |nodes|
      modifies this
      ensures (nodes, ok) == Materialize(old(nodes), i)
    {
      hide Consistent, Entries, Canonical, Seed;
      var l, count := EnabledUsers();
      var agree, canonical := CanonicalUsersFromServers(l);
      if !agree {
        return false;
      }
      var names := SortSet(canonical.Keys);
      OrderedItems(canonical.Keys);
      var t;
      t, ok := SeedTable(nodes[i].users, canonical, names);
      Write(i, t);
    }

    /** The remote part of a command on one server, with the deploy it may fall back on. */
    method ApplyRemote(i: nat, fallsBack: bool, remote: Remote) returns (ok: bool)
      requires i < |nodes|
      modifies this
      ensures (nodes, ok) == AfterRemote(old(nodes), i, fallsBack, remote)
    {
      hide Materialize;
      if remote.Fine? {
        return true;
      }
      if remote.Lost? || !fallsBack {
        return false;
      }
      ok := MaterializeCanonicalUsersOnServer(i);
      ok := ok && remote.rest;
    }

    method AddUserOnServer(i: nat, name: string, user: User, valid: bool, remote: Remote) returns (ok: bool)
      requires i < |nodes|
      modifies this
      ensures (nodes, ok) == OnServer(old(nodes), i, AddUser(name, user, valid), 0, remote)
    {
      assert nodes[i := nodes[i]] == nodes;
      if !valid {
        return false;
      }
      var row := user;
      if !row.quotaEnabled {
        row := row.(quotaEnabled := true);
      }
      var t := nodes[i].users;
      if name in t || EmailTaken(t, name, row.identity.email) {
        return false;
      }
      Write(i, t[name := row]);
      if !TagsStorable(row.identity.tags) {
        return false;
      }
      ok := ApplyRemote(i, true, remote);
    }

    method RemoveUserOnServer(i: nat, name: string, remote: Remote) returns (ok: bool)
      requires i < |nodes|
      modifies this
      ensures (nodes, ok) == OnServer(old(nodes), i, RemoveUser(name), 0, remote)
    {
      assert nodes[i := nodes[i]] == nodes;
      if name !in nodes[i].users {
        return false;
      }
      Write(i, nodes[i].users - {name});
      ok := ApplyRemote(i, true, remote);
    }

    method UpdateUser(i: nat, name: string, u: User) returns (ok: bool)
      requires i < |nodes| && name in nodes[i].users
      modifies this
      ensures var (t, good) := StoreUpdate(old(nodes)[i].users, name, u);
        ok == good && nodes == old(nodes)[i := old(nodes)[i].(users := t)]
    {
      hide TagsStorable, EmailTaken;
      assert nodes[i := nodes[i]] == nodes;
      var t := nodes[i].users;
      if EmailTaken(t, name, u.identity.email) {
        return false;
      }
      Write(i, t[name := u]);
      ok := TagsStorable(u.identity.tags);
    }

    method SetUserEnabledOnServer(i: nat, name: string, on: bool, remote: Remote) returns (ok: bool)
      requires i < |nodes|
      modifies this
      ensures (nodes, ok) == OnServer(old(nodes), i, SetEnabled(name, on), 0, remote)
    {
      hide StoreUpdate;
      assert nodes[i := nodes[i]] == nodes;
      if name !in nodes[i].users {
        return false;
      }
      var u := nodes[i].users[name];
      ok := UpdateUser(i, name, u.(identity := u.identity.(enabled := on)));
      if ok {
        ok := ApplyRemote(i, true, remote);
      }
    }

    method SetUserExpiryOnServer(i: nat, name: string, expiry: Option<int>, now: int, remote: Remote)
      returns (ok: bool)
      requires i < |nodes|
      modifies this
      ensures (nodes, ok) == OnServer(old(nodes), i, SetExpiry(name, expiry), now, remote)
    {
      hide StoreUpdate;
      assert nodes[i := nodes[i]] == nodes;
      if name !in nodes[i].users {
        return false;
      }
      var u := nodes[i].users[name];
      var (updated, changed) := UserAfterExpiryUpdate(u.identity, expiry, now);
      ok := UpdateUser(i, name, u.(identity := updated));
      if ok {
        ok := ApplyRemote(i, changed, remote);
      }
    }

    method SetUserQuotaOnServer(i: nat, name: string, bytes: nat, on: bool, remote: Remote) returns (ok: bool)
      requires i < |nodes|
      modifies this
      ensures (nodes, ok) == OnServer(old(nodes), i, SetQuota(name, bytes, on), 0, remote)
    {
      hide StoreUpdate;
      assert nodes[i := nodes[i]] == nodes;
      if name !in nodes[i].users {
        return false;
      }
      var u := nodes[i].users[name];
      u := u.(quotaEnabled := on);
      if bytes > 0 {
        u := u.(limit := Some(bytes));
      } else {
        u := u.(limit := None);
      }
      if !u.quotaEnabled {
        u := u.(quotaBlocked := false, blockedAt := None);
      }
      ok := UpdateUser(i, name, u);
      if ok {
        ok := ApplyRemote(i, false, remote);
      }
    }

    method ResetUserQuotaOnServer(i: nat, name: string, remote: Remote) returns (ok: bool)
      requires i < |nodes|
      modifies this
      ensures (nodes, ok) == OnServer(old(nodes), i, ResetQuota(name), 0, remote)
    {
      hide StoreUpdate;
      assert nodes[i := nodes[i]] == nodes;
      if name !in nodes[i].users || !remote.Fine? {
        return false;
      }
      ok := UpdateUser(i, name, nodes[i].users[name].(quotaBlocked := false, blockedAt := None));
    }

    method MutateOnServer(i: nat, op: Op, now: int, remote: Remote) returns (ok: bool)
      requires i < |nodes|
      modifies this
      ensures (nodes, ok) == OnServer(old(nodes), i, op, now, remote)
    {
      hide StoreUpdate, StoreAdd;
      match op
      case AddUser(name, user, valid) => ok := AddUserOnServer(i, name, user, valid, remote);
      case RemoveUser(name) => ok := RemoveUserOnServer(i, name, remote);
      case SetEnabled(name, on) => ok := SetUserEnabledOnServer(i, name, on, remote);
      case SetExpiry(name, expiry) => ok := SetUserExpiryOnServer(i, name, expiry, now, remote);
      case SetQuota(name, bytes, on) => ok := SetUserQuotaOnServer(i, name, bytes, on, remote);
      case ResetQuota(name) => ok := ResetUserQuotaOnServer(i, name, remote);
    }

    method CheckTargets(op: Op) returns (ok: bool)
      ensures ok <==> Precheck(nodes, op)
    {
      for i := 0 to |nodes|
        invariant forall j :: 0 <= j < i && nodes[j].enabled ==> (op.name in nodes[j].users <==> !op.AddUser?)
      {
        if nodes[i].enabled && (op.name in nodes[i].users) == op.AddUser? {
          assert EnabledAt(nodes, i);
          return false;
        }
      }
      ok := true;
    }

    /** A user command: resolve the servers, check them all, then change them one by one. */
    method MutateAll(op: Op, keysAgree: bool, clock: nat -> int, remote: nat -> Remote) returns (ok: bool)
      modifies this
      ensures (nodes, ok) == Mutate(old(nodes), op, keysAgree, clock, remote)
    {
      hide Resolves, Precheck, ApplyOn;
      var resolved := ResolveUserMutationServers(keysAgree);
      if !resolved {
        return false;
      }
      var ready := CheckTargets(op);
      if !ready {
        return false;
      }
      var n := |nodes|;
      for i := 0 to n
        invariant |nodes| == n && (nodes, true) == FanOut(old(nodes), op, clock, remote, i)
      {
        if !nodes[i].enabled {
          continue;
        }
        ok := MutateOnServer(i, op, clock(i), remote(i));
        if !ok {
          FanOutFailed(old(nodes), op, clock, remote, i + 1, n);
          return;
        }
      }
      ok := true;
    }

    method ServerAdd(name: string, peers: bool, accepted: bool) returns (ok: bool)
      modifies this
      ensures (nodes, ok) == AddServer(old(nodes), name, peers, accepted)
    {
      hide Consistent, Entries, Materialize;
      if peers {
        var l, count := EnabledUsers();
        var agree, canonical := CanonicalUsersFromServers(l);
        if !agree {
          return false;
        }
      }
      if !accepted {
        return false;
      }
      var i := 0;
      while i < |nodes| && !StrLess(name, nodes[i].name)
        invariant i <= |nodes| && Place(nodes, name) == i + Place(nodes[i..], name)
      {
        i := i + 1;
      }
      nodes := nodes[..i] + [Node(name, true, map[])] + nodes[i..];
      ok := MaterializeCanonicalUsersOnServer(i);
    }

    method ServerCleanup(i: nat, removeLocal: bool)
      requires i < |nodes|
      modifies this
      ensures nodes == Cleanup(old(nodes), i, removeLocal)
    {
      if removeLocal {
        nodes := nodes[..i] + nodes[i + 1..];
      } else {
        nodes := nodes[i := nodes[i].(enabled := false)];
      }
    }
  }

  lemma {:induction false} FanOutFailed(nodes: seq<Node>, op: Op, clock: nat -> int, remote: nat -> Remote,
      k: nat, n: nat)
    requires k <= n <= |nodes| && !FanOut(nodes, op, clock, remote, k).1
    ensures FanOut(nodes, op, clock, remote, n) == FanOut(nodes, op, clock, remote, k)
  {
    hide OnServer;
    if k < n {
      FanOutFailed(nodes, op, clock, remote, k, n - 1);
    }
  }

  lemma {:induction false} SeedFailed(t: Table, canonical: map<string, Entry>, names: seq<string>, k: nat)
    requires k <= |names| && (forall n :: n in names ==> n in canonical) && !Seed(t, canonical, names[..k]).1
    ensures Seed(t, canonical, names) == Seed(t, canonical, names[..k])
    decreases |names|
  {
    hide StoreAdd, StoreUpdate, Canon, Applied;
    if k == |names| {
      assert names[..k] == names;
    } else {
      var fewer := names[..|names| - 1];
      assert fewer[..k] == names[..k];
      SeedFailed(t, canonical, fewer, k);
    }
  }
}
