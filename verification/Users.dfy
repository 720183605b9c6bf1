/** Users replicated over all enabled servers, and the commands that change them
    (internal/cli/user_cmd_*.go, user_mutations.go, internal/store/local/store_users.go). */
module Users {
  import opened Rows
  import opened Text
  import opened Sorting
  import opened Identities
  import Quota

  /** The users of one server by username. */
  type Table = map<string, User>

  datatype Node = Node(name: string, enabled: bool, users: Table)

  // ---------------------------------------------------------------------------------------------
  // The users table

  /** user_tags is unique on (user, tag), so a repeated tag makes the tag sync fail. */
  predicate TagsStorable(tags: string) {
    NoRepeats(ParseCSV(tags))
  }

  /** UNIQUE(server_id, email). */
  predicate EmailTaken(t: Table, name: string, email: string) {
    exists n :: n in t && n != name && t[n].identity.email == email
  }

  /** Inserting forces quotas on; the row stays when syncing its tags fails. */
  function StoreAdd(t: Table, name: string, u: User): (Table, bool) {
    if name in t || EmailTaken(t, name, u.identity.email) then (t, false)
    else (t[name := u.(quotaEnabled := true)], TagsStorable(u.identity.tags))
  }

  function StoreUpdate(t: Table, name: string, u: User): (Table, bool) {
    if EmailTaken(t, name, u.identity.email) then (t, false)
    else (t[name := u], TagsStorable(u.identity.tags))
  }

  // ---------------------------------------------------------------------------------------------
  // One server's part of a command

  datatype Op =
    | AddUser(name: string, user: User, valid: bool)
    | RemoveUser(name: string)
    | SetEnabled(name: string, on: bool)
    | SetExpiry(name: string, expiry: Option<int>)
    | SetQuota(name: string, bytes: nat, on: bool)
    | ResetQuota(name: string)

  /** userAfterExpiryUpdate: the new identity, and whether the user's access changed. */
  function UserAfterExpiryUpdate(u: Identity, expiry: Option<int>, now: int): (Identity, bool) {
    var u' := u.(expiry := expiry, enabled := (expiry.None? || expiry.value > now) || u.enabled);
    (u', Quota.Effective(u.enabled, u.expiry, now) != Quota.Effective(u'.enabled, u'.expiry, now))
  }

  /** A new expiry date alone decides access at that moment. */
  lemma ExpiryDecidesAccess(u: Identity, expiry: Option<int>, now: int)
    ensures var (u', changed) := UserAfterExpiryUpdate(u, expiry, now);
      && (Quota.Effective(u'.enabled, u'.expiry, now) <==> !Quota.Expired(expiry, now))
      && (changed <==> (Quota.Effective(u.enabled, u.expiry, now) <==> Quota.Expired(expiry, now)))
  {
  }

  function WithQuota(u: User, bytes: nat, on: bool): User {
    u.(quotaEnabled := on, limit := if bytes > 0 then Some(bytes) else None,
       quotaBlocked := u.quotaBlocked && on, blockedAt := if on then u.blockedAt else None)
  }

  /** The row an operation leaves for a user. */
  function Changed(u: User, op: Op, now: int): User {
    match op
    case SetEnabled(_, on) => u.(identity := u.identity.(enabled := on))
    case SetExpiry(_, expiry) => u.(identity := UserAfterExpiryUpdate(u.identity, expiry, now).0)
    case SetQuota(_, bytes, on) => WithQuota(u, bytes, on)
    case ResetQuota(_) => u.(quotaBlocked := false, blockedAt := None)
    case _ => u
  }

  function ApplyOn(t: Table, op: Op, now: int): (Table, bool) {
    if op.AddUser? then
      if op.valid then StoreAdd(t, op.name, op.user) else (t, false)
    else if op.name !in t then (t, false)
    else if op.RemoveUser? then (t - {op.name}, true)
    else StoreUpdate(t, op.name, Changed(t[op.name], op, now))
  }

  // ---------------------------------------------------------------------------------------------
  // Reading all enabled servers

  /** ListUsers: the rows ordered by username. */
  ghost function Listing(t: Table): seq<Entry> {
    var l := Ordered(t.Keys);
    seq(|l|, i requires 0 <= i < |l| => Entry(l[i], if l[i] in t then t[l[i]] else DEFAULT_USER))
  }

  const DEFAULT_USER := User(Identity("", "", false, None, "", ""), None, false, false, None)

  lemma ListingMembers(t: Table, e: Entry)
    ensures e in Listing(t) <==> e.username in t && e.user == t[e.username]
  {
    OrderedItems(t.Keys);
    var l := Ordered(t.Keys);
    if e.username in t && e.user == t[e.username] {
      var i :| 0 <= i < |l| && l[i] == e.username;
      assert Listing(t)[i] == e;
    }
  }

  ghost function Entries(nodes: seq<Node>): seq<Entry> {
    if nodes == [] then []
    else
      var n := nodes[|nodes| - 1];
      Entries(nodes[..|nodes| - 1]) + if n.enabled then Listing(n.users) else []
  }

  predicate EnabledAt(nodes: seq<Node>, i: int) {
    0 <= i < |nodes| && nodes[i].enabled
  }

  lemma {:induction false} EntriesMembers(nodes: seq<Node>, e: Entry)
    ensures e in Entries(nodes) <==>
      exists i :: EnabledAt(nodes, i) && e.username in nodes[i].users && e.user == nodes[i].users[e.username]
  {
    hide Listing;
    if nodes != [] {
      var last := nodes[|nodes| - 1];
      EntriesMembers(nodes[..|nodes| - 1], e);
      ListingMembers(last.users, e);
      if e in Entries(nodes[..|nodes| - 1]) {
        var i :| EnabledAt(nodes[..|nodes| - 1], i) && e.username in nodes[..|nodes| - 1][i].users &&
          e.user == nodes[..|nodes| - 1][i].users[e.username];
        assert EnabledAt(nodes, i) && nodes[i] == nodes[..|nodes| - 1][i];
      } else if last.enabled && e in Listing(last.users) {
        assert EnabledAt(nodes, |nodes| - 1);
      }
      if i :| EnabledAt(nodes, i) && e.username in nodes[i].users && e.user == nodes[i].users[e.username] {
        if i < |nodes| - 1 {
          assert EnabledAt(nodes[..|nodes| - 1], i) && nodes[i] == nodes[..|nodes| - 1][i];
        }
      }
    }
  }

  function EnabledCount(nodes: seq<Node>): nat {
    if nodes == [] then 0 else EnabledCount(nodes[..|nodes| - 1]) + if nodes[|nodes| - 1].enabled then 1 else 0
  }

  // ---------------------------------------------------------------------------------------------
  // Commands

  /** How the remote part of a command goes on one server. Lost means a call failed and nothing took
      its place. Redeployed means the runtime call failed and the server was deployed anew, which seeds
      its users first; `rest` tells whether the deploy went on to succeed. */
  datatype Remote = Fine | Lost | Redeployed(rest: bool)

  /** Whether the command deploys the server when its runtime call fails. */
  predicate FallsBack(t: Table, op: Op, now: int) {
    match op
    case AddUser(_, _, _) => true
    case RemoveUser(_) => true
    case SetEnabled(_, _) => true
    case SetExpiry(name, expiry) => name in t && UserAfterExpiryUpdate(t[name].identity, expiry, now).1
    case SetQuota(_, _, _) => false
    case ResetQuota(_) => false
  }

  /** What follows once the row is written. */
  ghost function AfterRemote(nodes: seq<Node>, i: nat, fallsBack: bool, remote: Remote): (r: (seq<Node>, bool))
    requires i < |nodes|
    ensures |r.0| == |nodes|
  {
    if remote.Redeployed? && fallsBack then
      var (nodes', seeded) := Materialize(nodes, i);
      (nodes', seeded && remote.rest)
    else (nodes, remote.Fine?)
  }

  /** One server's part of a command. Only a quota reset calls the agent before it writes the row. */
  ghost function OnServer(nodes: seq<Node>, i: nat, op: Op, now: int, remote: Remote): (r: (seq<Node>, bool))
    requires i < |nodes|
    ensures |r.0| == |nodes|
  {
    var (t, ok) := ApplyOn(nodes[i].users, op, now);
    var nodes' := nodes[i := nodes[i].(users := t)];
    if op.ResetQuota? && !remote.Fine? then (nodes, false)
    else if !ok then (nodes', false)
    else AfterRemote(nodes', i, FallsBack(nodes[i].users, op, now), remote)
  }

  /** Applies an operation to each enabled server in turn, stopping at the first failure. */
  ghost function FanOut(nodes: seq<Node>, op: Op, clock: nat -> int, remote: nat -> Remote, n: nat): (seq<Node>, bool)
    requires n <= |nodes|
    ensures |FanOut(nodes, op, clock, remote, n).0| == |nodes|
  {
    if n == 0 then (nodes, true)
    else
      var (nodes', ok) := FanOut(nodes, op, clock, remote, n - 1);
      if !ok || !nodes'[n - 1].enabled then (nodes', ok) else OnServer(nodes', n - 1, op, clock(n - 1), remote(n - 1))
  }

  /** A user must be missing from every enabled server to be added, and present to be changed. */
  ghost predicate Precheck(nodes: seq<Node>, op: Op) {
    forall i :: EnabledAt(nodes, i) ==> (op.name in nodes[i].users <==> !op.AddUser?)
  }

  /** resolveUserMutationServers; whether transport keys agree comes with the command. */
  ghost predicate Resolves(nodes: seq<Node>, keysAgree: bool) {
    && EnabledCount(nodes) > 0
    && (EnabledCount(nodes) > 1 ==> keysAgree && Consistent(Entries(nodes)))
  }

  ghost function Mutate(nodes: seq<Node>, op: Op, keysAgree: bool, clock: nat -> int,
      remote: nat -> Remote): (seq<Node>, bool)
  {
    if !Resolves(nodes, keysAgree) || !Precheck(nodes, op) then (nodes, false)
    else FanOut(nodes, op, clock, remote, |nodes|)
  }

  /** The row a canonical user gets on a server that does not have it. */
  function Copied(u: User): User {
    u.(quotaBlocked := false, blockedAt := None)
  }

  /** The loop of materializeCanonicalUsersOnServer over some canonical usernames. */
  function Seed(t: Table, canonical: map<string, Entry>, names: seq<string>): (Table, bool)
    requires forall n :: n in names ==> n in canonical
  {
    if names == [] then (t, true)
    else
      var name := names[|names| - 1];
      var (t', ok) := Seed(t, canonical, names[..|names| - 1]);
      var want := canonical[name];
      if !ok then (t', false)
      else if name !in t then StoreAdd(t', want.username, Copied(want.user))
      else if Canon(t[name].identity) == Canon(want.user.identity) then (t', true)
      else StoreUpdate(t', name, t[name].(identity := Applied(t[name].identity, want.user.identity)))
  }

  ghost function Materialize(nodes: seq<Node>, i: nat): (seq<Node>, bool)
    requires i < |nodes|
  {
    if !Consistent(Entries(nodes)) then (nodes, false)
    else
      var canonical := Canonical(Entries(nodes));
      OrderedItems(canonical.Keys);
      var (t, ok) := Seed(nodes[i].users, canonical, Ordered(canonical.Keys));
      (nodes[i := nodes[i].(users := t)], ok)
  }

  /** Where a new server goes in the order by name. */
  function Place(nodes: seq<Node>, name: string): (i: nat)
    ensures i <= |nodes|
  {
    if nodes == [] || StrLess(name, nodes[0].name) then 0 else 1 + Place(nodes[1..], name)
  }

  /** Registering a server; `accepted` tells whether the registry takes it, `peers` whether it has
      enabled servers of its role. */
  ghost function AddServer(nodes: seq<Node>, name: string, peers: bool, accepted: bool): (seq<Node>, bool) {
    if !accepted || (peers && !Consistent(Entries(nodes))) then (nodes, false)
    else
      var i := Place(nodes, name);
      Materialize(nodes[..i] + [Node(name, true, map[])] + nodes[i..], i)
  }

  function Cleanup(nodes: seq<Node>, i: nat, removeLocal: bool): seq<Node>
    requires i < |nodes|
  {
    if removeLocal then nodes[..i] + nodes[i + 1..] else nodes[i := nodes[i].(enabled := false)]
  }

  datatype Command =
    | UserCommand(op: Op, keysAgree: bool, now: int, remote: nat -> Remote)
    | ServerAdd(name: string, peers: bool, accepted: bool)
    | ServerCleanup(server: nat, removeLocal: bool)

  const ALL_FINE: nat -> Remote := _ => Fine

  /** One command; it reads the clock once. */
  ghost function Step(nodes: seq<Node>, c: Command): seq<Node> {
    match c
    case UserCommand(op, keysAgree, now, remote) => Mutate(nodes, op, keysAgree, _ => now, remote).0
    case ServerAdd(name, peers, accepted) => AddServer(nodes, name, peers, accepted).0
    case ServerCleanup(i, removeLocal) => if i < |nodes| then Cleanup(nodes, i, removeLocal) else nodes
  }

  ghost function Run(nodes: seq<Node>, commands: seq<Command>): seq<Node>
    decreases |commands|
  {
    if commands == [] then nodes else Run(Step(nodes, commands[0]), commands[1..])
  }

  // ---------------------------------------------------------------------------------------------
  // Replication

  function Ids(t: Table): map<string, Identity> {
    map n | n in t :: t[n].identity
  }

  /** All enabled servers have the same usernames with the same identities. */
  ghost predicate Replicated(nodes: seq<Node>) {
    forall i, j :: EnabledAt(nodes, i) && EnabledAt(nodes, j) ==> Ids(nodes[i].users) == Ids(nodes[j].users)
  }

  predicate CleanName(n: string) {
    n != "" && Trim(n) == n
  }

  predicate TableOk(t: Table) {
    && (forall n :: n in t ==> CleanName(n) && TagsStorable(t[n].identity.tags))
    && (forall n, m :: n in t && m in t && t[n].identity.email == t[m].identity.email ==> n == m)
  }

  ghost predicate Healthy(nodes: seq<Node>) {
    Replicated(nodes) && forall i :: 0 <= i < |nodes| ==> TableOk(nodes[i].users)
  }

  /** The username of a command is trimmed and not empty. A tag given twice is excluded. */
  predicate GoodOp(op: Op) {
    CleanName(op.name) && (op.AddUser? ==> TagsStorable(op.user.identity.tags))
  }
}
