/** The operator's registry of servers and proxy attachments, and what each command does to it
    (internal/cli/server_cmd_*.go, proxy_helpers.go, vless_encryption.go, internal/store/local). */
module Registry {
  import opened Rows
  import opened Text
  import opened Sorting
  import opened Profiles

  datatype Pair = Pair(client: string, server: string)

  /** A row of servers. `detailsOk` stands for the checks on fields no command here looks at. */
  datatype Server = Server(
    id: nat, name: string, proxy: bool, enabled: bool, detailsOk: bool,
    primary: Profile, profiles: seq<Profile>,
    privateKey: string, publicKey: string, shortIds: string,
    serviceUuid: string, vless: Pair)

  datatype Link = Link(enabled: bool, priority: int)

  /** `next` is the autoincremented id; links are keyed by (proxy id, backend id). */
  datatype State = State(servers: map<nat, Server>, links: map<(nat, nat), Link>, next: nat)

  const EMPTY := State(map[], map[], 0)

  // ---------------------------------------------------------------------------------------------
  // Reading the tables

  /** ListServers: rows by id. */
  function Listing(servers: map<nat, Server>, n: nat): seq<Server> {
    if n == 0 then []
    else Listing(servers, n - 1) + if n - 1 in servers then [servers[n - 1]] else []
  }

  lemma {:induction false} ListingMembers(servers: map<nat, Server>, n: nat, s: Server)
    ensures s in Listing(servers, n) <==> exists id :: 0 <= id < n && id in servers && servers[id] == s
  {
    if n > 0 {
      ListingMembers(servers, n - 1, s);
    }
  }

  function FindByName(l: seq<Server>, name: string): Option<Server> {
    if l == [] then None
    else if l[0].name == name then Some(l[0])
    else FindByName(l[1..], name)
  }

  function ByName(st: State, name: string): Option<Server> {
    FindByName(Listing(st.servers, st.next), name)
  }

  lemma {:induction false} FindByNameFinds(l: seq<Server>, name: string)
    ensures var r := FindByName(l, name);
      if r.Some? then r.value in l && r.value.name == name else forall s :: s in l ==> s.name != name
  {
    if l != [] && l[0].name != name {
      FindByNameFinds(l[1..], name);
    }
  }

  function NameOf(s: Server): string {
    s.name
  }

  /** sort.Slice by name. */
  function SortByName(l: seq<Server>): seq<Server> {
    SortBy(l, NameOf)
  }

  function Enabled(l: seq<Server>): seq<Server> {
    if l == [] then []
    else Enabled(l[..|l| - 1]) + if l[|l| - 1].enabled then [l[|l| - 1]] else []
  }

  function OfRole(l: seq<Server>, proxy: bool): seq<Server> {
    if l == [] then []
    else OfRole(l[..|l| - 1], proxy) + if l[|l| - 1].proxy == proxy then [l[|l| - 1]] else []
  }

  lemma {:induction false} EnabledMembers(l: seq<Server>, x: Server)
    ensures x in Enabled(l) <==> x in l && x.enabled
  {
    if l != [] {
      EnabledMembers(l[..|l| - 1], x);
      assert l == l[..|l| - 1] + [l[|l| - 1]];
    }
  }

  lemma {:induction false} OfRoleMembers(l: seq<Server>, proxy: bool, x: Server)
    ensures x in OfRole(l, proxy) <==> x in l && x.proxy == proxy
  {
    if l != [] {
      OfRoleMembers(l[..|l| - 1], proxy, x);
      assert l == l[..|l| - 1] + [l[|l| - 1]];
    }
  }

  /** Enabled servers of a role, sorted by name. */
  function EnabledOfRole(st: State, proxy: bool): seq<Server> {
    OfRole(SortByName(Enabled(Listing(st.servers, st.next))), proxy)
  }

  lemma EnabledOfRoleMembers(st: State, proxy: bool, x: Server)
    ensures x in EnabledOfRole(st, proxy) <==> x in Listing(st.servers, st.next) && x.enabled && x.proxy == proxy
  {
    OfRoleMembers(SortByName(Enabled(Listing(st.servers, st.next))), proxy, x);
    SortByMembers(Enabled(Listing(st.servers, st.next)), NameOf, x);
    EnabledMembers(Listing(st.servers, st.next), x);
  }

  /** All vpn servers, enabled or not, sorted by name. */
  function VpnServers(st: State): seq<Server> {
    SortByName(OfRole(Listing(st.servers, st.next), false))
  }

  lemma VpnServersMembers(st: State, x: Server)
    ensures x in VpnServers(st) <==> x in Listing(st.servers, st.next) && !x.proxy
  {
    SortByMembers(OfRole(Listing(st.servers, st.next), false), NameOf, x);
    OfRoleMembers(Listing(st.servers, st.next), false, x);
  }

  /** ListAttachedBackendServers: backends of enabled links, by priority and then id. */
  function LinkedIds(st: State, proxy: nat, n: nat): seq<nat> {
    if n == 0 then []
    else if (proxy, n - 1) in st.links && st.links[(proxy, n - 1)].enabled && n - 1 in st.servers
    then InsertByPriority(st, proxy, n - 1, LinkedIds(st, proxy, n - 1))
    else LinkedIds(st, proxy, n - 1)
  }

  function Priority(st: State, proxy: nat, id: nat): int {
    if (proxy, id) in st.links then st.links[(proxy, id)].priority else 0
  }

  function InsertByPriority(st: State, proxy: nat, id: nat, l: seq<nat>): seq<nat> {
    if l == [] || Priority(st, proxy, id) < Priority(st, proxy, l[0]) then [id] + l
    else [l[0]] + InsertByPriority(st, proxy, id, l[1..])
  }

  lemma {:induction false} InsertByPriorityMembers(st: State, proxy: nat, id: nat, l: seq<nat>, x: nat)
    ensures x in InsertByPriority(st, proxy, id, l) <==> x == id || x in l
  {
    if l != [] && Priority(st, proxy, id) >= Priority(st, proxy, l[0]) {
      InsertByPriorityMembers(st, proxy, id, l[1..], x);
      assert l == [l[0]] + l[1..];
    }
  }

  predicate Attached(st: State, proxy: nat, id: nat) {
    (proxy, id) in st.links && st.links[(proxy, id)].enabled
  }

  lemma {:induction false} LinkedIdsMembers(st: State, proxy: nat, n: nat, x: nat)
    ensures x in LinkedIds(st, proxy, n) <==> x < n && Attached(st, proxy, x) && x in st.servers
  {
    if n > 0 {
      LinkedIdsMembers(st, proxy, n - 1, x);
      if Attached(st, proxy, n - 1) && n - 1 in st.servers {
        InsertByPriorityMembers(st, proxy, n - 1, LinkedIds(st, proxy, n - 1), x);
      }
    }
  }

  function RowsOf(st: State, ids: seq<nat>): seq<Server> {
    if ids == [] then []
    else RowsOf(st, ids[..|ids| - 1]) + if ids[|ids| - 1] in st.servers then [st.servers[ids[|ids| - 1]]] else []
  }

  lemma {:induction false} RowsOfMembers(st: State, ids: seq<nat>, x: Server)
    ensures x in RowsOf(st, ids) <==> exists id :: id in ids && id in st.servers && st.servers[id] == x
  {
    if ids != [] {
      RowsOfMembers(st, ids[..|ids| - 1], x);
      assert ids == ids[..|ids| - 1] + [ids[|ids| - 1]];
    }
  }

  function Backends(st: State, proxy: nat): seq<Server> {
    RowsOf(st, LinkedIds(st, proxy, st.next))
  }

  lemma BackendsMembers(st: State, proxy: nat, x: Server)
    ensures x in Backends(st, proxy) <==>
      exists id: nat :: id < st.next && Attached(st, proxy, id) && id in st.servers && st.servers[id] == x
  {
    RowsOfMembers(st, LinkedIds(st, proxy, st.next), x);
    forall id: nat
      ensures id in LinkedIds(st, proxy, st.next) <==> id < st.next && Attached(st, proxy, id) && id in st.servers
    {
      LinkedIdsMembers(st, proxy, st.next, id);
    }
  }

  /** BackendHasAttachedProxy. */
  predicate HasAttachedProxy(st: State, id: nat) {
    exists k :: k in st.links && k.1 == id && st.links[k].enabled
  }

  // ---------------------------------------------------------------------------------------------
  // Storing a server

  function ProfilesOf(s: Server): seq<Profile> {
    InOrder({s.primary} + SetOf(s.profiles))
  }

  function Normalized(s: Server): Server {
    s.(profiles := ProfilesOf(s))
  }

  predicate CompletePair(p: Pair) {
    Blank(p.client) <==> Blank(p.server)
  }

  predicate Holds(s: Server) {
    !Blank(s.vless.client)
  }

  predicate Valid(s: Server) {
    && s.detailsOk && !Blank(s.name)
    && !Blank(s.privateKey) && !Blank(s.publicKey) && !Blank(s.shortIds)
    && CompletePair(s.vless)
    && s.primary in s.profiles
    && (VlessEnc in s.profiles ==> !s.proxy && Holds(s))
  }

  /** UpdateServer. */
  function Update(st: State, s: Server): (State, bool) {
    var n := Normalized(s);
    if !Valid(n) then (st, false)
    else if s.id in st.servers then (st.(servers := st.servers[s.id := n]), true)
    else (st, true)
  }

  /** AddServer: the name is unique. */
  function Insert(st: State, s: Server): (State, bool) {
    var n := Normalized(s).(id := st.next);
    if !Valid(n) || ByName(st, n.name).Some? then (st, false)
    else (State(st.servers[st.next := n], st.links, st.next + 1), true)
  }

  /** DeleteServerByName: the attachments cascade. */
  function Remove(st: State, id: nat): State {
    State(map k | k in st.servers && k != id :: st.servers[k],
          map k | k in st.links && k.0 != id && k.1 != id :: st.links[k], st.next)
  }

  // ---------------------------------------------------------------------------------------------
  // Key parity

  predicate SameReality(a: Server, b: Server) {
    Trim(a.privateKey) == Trim(b.privateKey) && Trim(a.publicKey) == Trim(b.publicKey) &&
      Trim(a.shortIds) == Trim(b.shortIds)
  }

  predicate SamePool(a: Server, b: Server) {
    SameReality(a, b) && Trim(a.serviceUuid) == Trim(b.serviceUuid)
  }

  predicate RealityParity(l: seq<Server>) {
    forall i, j :: 0 <= i < |l| && 0 <= j < |l| ==> SameReality(l[i], l[j])
  }

  predicate Relayable(s: Server) {
    !s.proxy && Reality in ProfilesOf(s)
  }

  /** What every pool of backends must satisfy. */
  predicate Pool(l: seq<Server>) {
    && l != []
    && (forall i :: 0 <= i < |l| ==> Relayable(l[i]))
    && forall i, j :: 0 <= i < |l| && 0 <= j < |l| ==> SamePool(l[i], l[j])
  }

  function Trimmed(p: Pair): Pair {
    Pair(Trim(p.client), Trim(p.server))
  }

  predicate VlessParity(l: seq<Server>) {
    && (forall i :: 0 <= i < |l| ==> CompletePair(l[i].vless))
    && forall i, j :: 0 <= i < |l| && 0 <= j < |l| && Holds(l[i]) && Holds(l[j]) ==>
      Trimmed(l[i].vless) == Trimmed(l[j].vless)
  }

  /** The first server of a list that holds a pair. */
  function Holder(l: seq<Server>): Option<Server> {
    if l == [] then None
    else
      var earlier := Holder(l[..|l| - 1]);
      if earlier.Some? then earlier else if Holds(l[|l| - 1]) then Some(l[|l| - 1]) else None
  }

  lemma {:induction false} HolderHolds(l: seq<Server>)
    ensures var r := Holder(l);
      if r.Some? then r.value in l && Holds(r.value) else forall s :: s in l ==> !Holds(s)
  {
    if l != [] {
      HolderHolds(l[..|l| - 1]);
      assert l == l[..|l| - 1] + [l[|l| - 1]];
    }
  }

  // ---------------------------------------------------------------------------------------------
  // Commands. What a remote call, a key generator or a check of another table yields comes with
  // the command.

  datatype Flags = Flags(privateKey: Option<string>, publicKey: Option<string>, shortIds: Option<string>)

  datatype Command =
    | Add(name: string, role: Option<bool>, detailsOk: bool, flags: Flags, othersMatch: bool, usersAgree: bool,
          keys: Option<(string, string)>, newShortId: string, seeded: bool)
    | Enable(name: string, profile: Option<Profile>, generated: Option<Pair>)
    | Disable(name: string, profile: Option<Profile>)
    | Switch(name: string, profile: Option<Profile>, generated: Option<Pair>)
    | Attach(proxy: string, backend: string, priority: int, newUuid: string)
    | Detach(proxy: string, backend: string)
    | Cleanup(name: string, ready: bool, removeLocal: bool)

  /** A freshly generated UUID is never blank. */
  predicate WellFormed(c: Command) {
    c.Attach? ==> !Blank(c.newUuid)
  }

  /** SetVLESSEncryptionForServers: one transaction over all the ids. */
  function SetVless(servers: map<nat, Server>, ids: seq<nat>, pair: Pair): Option<map<nat, Server>> {
    if ids == [] then Some(servers)
    else
      var rest := SetVless(servers, ids[..|ids| - 1], pair);
      var id := ids[|ids| - 1];
      if rest.None? || id !in rest.value then None
      else Some(rest.value[id := rest.value[id].(vless := pair)])
  }

  function Ids(l: seq<Server>): seq<nat> {
    seq(|l|, i requires 0 <= i < |l| => l[i].id)
  }

  /** The pair the whole cluster shares, or the newly generated one. */
  function ClusterPair(l: seq<Server>, generated: Option<Pair>): Option<Pair> {
    var holder := Holder(l);
    if holder.Some? then Some(Trimmed(holder.value.vless))
    else if generated.Some? && ValidVlessValue(generated.value.client, CLIENT_PREFIX) &&
            ValidVlessValue(generated.value.server, SERVER_PREFIX)
    then Some(Trimmed(generated.value))
    else None
  }

  /** ensureVLESSEncryptionForServer: the state, the target with its pair, and success. */
  function EnsureVless(st: State, target: Server, generated: Option<Pair>): (State, Server, bool) {
    var vpn := VpnServers(st);
    var pair := ClusterPair(vpn, generated);
    if target.proxy || vpn == [] || !VlessParity(vpn) || pair.None? then (st, target, false)
    else
      var stored := SetVless(st.servers, Ids(vpn), pair.value);
      if stored.None? then (st, target, false)
      else (st.(servers := stored.value), target.(vless := pair.value), true)
  }

  function EnsureFor(st: State, target: Server, profile: Profile, generated: Option<Pair>): (State, Server, bool) {
    if profile == VlessEnc then EnsureVless(st, target, generated) else (st, target, true)
  }

  predicate ConflictsOn443(enabled: seq<Profile>, profile: Profile) {
    exists p :: p in enabled && p != profile && Port(p) == Port(profile)
  }

  function EnableProfile(st: State, name: string, profile: Option<Profile>, generated: Option<Pair>): (State, bool) {
    var found := ByName(st, name);
    if found.None? || profile.None? then (st, false)
    else
      var (st', srv, ok) := EnsureFor(st, found.value, profile.value, generated);
      if !ok || ConflictsOn443(ProfilesOf(srv), profile.value) then (st', false)
      else Update(st', srv.(profiles := ProfilesOf(srv) + [profile.value]))
  }

  /** validateAttachedBackendProfiles. */
  predicate ProfilesAllowed(st: State, s: Server, profiles: seq<Profile>) {
    s.proxy || Reality in profiles || !HasAttachedProxy(st, s.id)
  }

  function Without(l: seq<Profile>, p: Profile): seq<Profile> {
    if l == [] then []
    else Without(l[..|l| - 1], p) + if l[|l| - 1] == p then [] else [l[|l| - 1]]
  }

  function DisableProfile(st: State, name: string, profile: Option<Profile>): (State, bool) {
    var found := ByName(st, name);
    if found.None? || profile.None? || profile.value == found.value.primary then (st, false)
    else
      var srv := found.value;
      var next := Without(ProfilesOf(srv), profile.value);
      if profile.value !in ProfilesOf(srv) then (st, true)
      else if !ProfilesAllowed(st, srv, next) then (st, false)
      else Update(st, srv.(profiles := next))
  }

  function SwitchProfile(st: State, name: string, profile: Option<Profile>, generated: Option<Pair>): (State, bool) {
    var found := ByName(st, name);
    if found.None? || profile.None? then (st, false)
    else
      var (st', srv, ok) := EnsureFor(st, found.value, profile.value, generated);
      var next := InOrder({profile.value} + SetOf(Compatible(ProfilesOf(srv), profile.value)));
      if !ok || !ProfilesAllowed(st', srv, next) then (st', false)
      else Update(st', srv.(primary := profile.value, profiles := next))
  }

  datatype Uuids = Nobody | Shared(uuid: string) | Several

  /** The service UUIDs found in a pool. */
  function UuidsOf(l: seq<Server>): Uuids {
    if l == [] then Nobody
    else
      var u := Trim(l[|l| - 1].serviceUuid);
      match UuidsOf(l[..|l| - 1])
      case Several => Several
      case Nobody => if u == "" then Nobody else Shared(u)
      case Shared(v) => if u == "" || u == v then Shared(v) else Several
  }

  /** Give the UUID to every listed server without one. */
  function FillUuids(st: State, l: seq<Server>, uuid: string): (State, bool) {
    if l == [] then (st, true)
    else
      var (st', ok) := FillUuids(st, l[..|l| - 1], uuid);
      var s := l[|l| - 1];
      if !ok || !Blank(s.serviceUuid) then (st', ok) else Update(st', s.(serviceUuid := uuid))
  }

  /** ensureBackendProxyServiceUUID: the state, the backend as the caller sees it, and success. */
  function EnsureUuid(st: State, backend: Server, existing: seq<Server>, newUuid: string): (State, Server, bool) {
    var found := UuidsOf(existing);
    if backend.proxy || found == Several then (st, backend, true)
    else
      var uuid := if found.Shared? then found.uuid
                  else if !Blank(backend.serviceUuid) then Trim(backend.serviceUuid) else newUuid;
      var (st', ok) := FillUuids(st, existing, uuid);
      if !ok then (st', backend, false)
      else if !Blank(backend.serviceUuid) then (st', backend, true)
      else
        var given := backend.(serviceUuid := uuid);
        var (st'', ok') := Update(st', given);
        (st'', if ok' then Normalized(given) else given, ok')
  }

  function WithoutId(l: seq<Server>, id: nat): seq<Server> {
    if l == [] then []
    else WithoutId(l[..|l| - 1], id) + if l[|l| - 1].id == id then [] else [l[|l| - 1]]
  }

  function AttachBackend(st: State, proxy: string, backend: string, priority: int, newUuid: string): (State, bool) {
    var p, b := ByName(st, proxy), ByName(st, backend);
    if p.None? || !p.value.proxy || b.None? || !Pool([b.value]) then (st, false)
    else
      var existing := Backends(st, p.value.id);
      var (st', given, ok) := EnsureUuid(st, b.value, existing, newUuid);
      if !ok || !Pool(WithoutId(existing, given.id) + [given]) then (st', false)
      else (st'.(links := st'.links[(p.value.id, given.id) := Link(true, priority)]), true)
  }

  function DetachBackend(st: State, proxy: string, backend: string): (State, bool) {
    var p, b := ByName(st, proxy), ByName(st, backend);
    if p.None? || b.None? then (st, false)
    else (st.(links := st.links - {(p.value.id, b.value.id)}), true)
  }

  function CleanupServer(st: State, name: string, ready: bool, removeLocal: bool): (State, bool) {
    var s := ByName(st, name);
    if s.None? || !ready then (st, false)
    else if removeLocal then (Remove(st, s.value.id), true)
    else Update(st, s.value.(enabled := false))
  }

  function OrElse(o: Option<string>, default: string): string {
    if o.Some? then o.value else default
  }

  predicate Matches(flag: Option<string>, baseline: string) {
    flag.Some? ==> Trim(flag.value) == Trim(baseline)
  }

  /** The keys a new server gets: the cluster baseline's, the given ones or new ones. */
  function KeysFor(existing: seq<Server>, c: Command): Option<(string, string, string)>
    requires c.Add?
  {
    var f := c.flags;
    if existing != [] then
      var base := existing[0];
      if Matches(f.privateKey, base.privateKey) && Matches(f.publicKey, base.publicKey) &&
        Matches(f.shortIds, base.shortIds) && c.othersMatch
      then Some((OrElse(f.privateKey, base.privateKey), OrElse(f.publicKey, base.publicKey),
        OrElse(f.shortIds, base.shortIds)))
      else None
    else
      var priv, pub := OrElse(f.privateKey, ""), OrElse(f.publicKey, "");
      var short := if Blank(OrElse(f.shortIds, "")) then c.newShortId else f.shortIds.value;
      if (priv == "") != (pub == "") then None
      else if priv != "" then Some((priv, pub, short))
      else if c.keys.Some? then Some((c.keys.value.0, c.keys.value.1, short))
      else None
  }

  function AddServer(st: State, c: Command): (State, bool)
    requires c.Add?
  {
    if c.role.None? then (st, false)
    else
      var existing := EnabledOfRole(st, c.role.value);
      var keys := KeysFor(existing, c);
      if existing != [] && (!RealityParity(existing) || (!c.role.value && !VlessParity(existing)) || !c.usersAgree)
      then (st, false)
      else if keys.None? then (st, false)
      else
        var holder := if c.role.value then None else Holder(existing);
        var s := Server(0, c.name, c.role.value, true, c.detailsOk, Reality, [], keys.value.0,
                        keys.value.1, keys.value.2, "",
                        if holder.Some? then holder.value.vless else Pair("", ""));
        var (st', ok) := Insert(st, s);
        (st', ok && c.seeded)
  }

  function Step(st: State, c: Command): (State, bool) {
    match c
    case Add(_, _, _, _, _, _, _, _, _) => AddServer(st, c)
    case Enable(name, profile, generated) => EnableProfile(st, name, profile, generated)
    case Disable(name, profile) => DisableProfile(st, name, profile)
    case Switch(name, profile, generated) => SwitchProfile(st, name, profile, generated)
    case Attach(proxy, backend, priority, newUuid) => AttachBackend(st, proxy, backend, priority, newUuid)
    case Detach(proxy, backend) => DetachBackend(st, proxy, backend)
    case Cleanup(name, ready, removeLocal) => CleanupServer(st, name, ready, removeLocal)
  }

  function Run(st: State, commands: seq<Command>): State
    decreases |commands|
  {
    if commands == [] then st else Run(Step(st, commands[0]).0, commands[1..])
  }
}
