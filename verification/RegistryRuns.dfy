/** What every run of registry commands keeps. */
module RegistryRuns {
  import opened Rows
  import opened Text
  import opened Profiles
  import opened Registry

  // ---------------------------------------------------------------------------------------------
  // The invariant

  ghost predicate ServerOk(st: State, id: nat)
    requires id in st.servers
  {
    var s := st.servers[id];
    s.id == id && id < st.next && Valid(s) && s.profiles == InOrder(SetOf(s.profiles)) &&
      PortsDistinct(SetOf(s.profiles))
  }

  ghost predicate ServersOk(st: State) {
    forall id :: id in st.servers ==> ServerOk(st, id)
  }

  /** All vpn servers with a VLESS Encryption pair hold the same one. */
  ghost predicate VlessAgree(st: State) {
    forall a, b :: a in st.servers && b in st.servers && OneCluster(st.servers[a], st.servers[b]) ==>
      Trimmed(st.servers[a].vless) == Trimmed(st.servers[b].vless)
  }

  predicate OneCluster(a: Server, b: Server) {
    !a.proxy && !b.proxy && Holds(a) && Holds(b)
  }

  predicate Peers(a: Server, b: Server) {
    a.enabled && b.enabled && a.proxy == b.proxy
  }

  ghost predicate RealityAgree(st: State) {
    forall a, b :: a in st.servers && b in st.servers && Peers(st.servers[a], st.servers[b]) ==>
      SameReality(st.servers[a], st.servers[b])
  }

  ghost predicate LinkOk(st: State, k: (nat, nat)) {
    && k.0 in st.servers && k.1 in st.servers
    && st.servers[k.0].proxy && !st.servers[k.1].proxy
    && Reality in st.servers[k.1].profiles && !Blank(st.servers[k.1].serviceUuid)
  }

  ghost predicate LinksOk(st: State) {
    forall k :: k in st.links ==> LinkOk(st, k)
  }

  /** All backends of one proxy agree. */
  ghost predicate PoolsAgree(st: State)
    requires LinksOk(st)
  {
    forall k, m :: k in st.links && m in st.links && k.0 == m.0 ==> SamePool(st.servers[k.1], st.servers[m.1])
  }

  ghost predicate Agreement(st: State) {
    VlessAgree(st) && RealityAgree(st) && LinksOk(st) && PoolsAgree(st)
  }

  ghost predicate Sound(st: State) {
    ServersOk(st) && Agreement(st)
  }

  // ---------------------------------------------------------------------------------------------
  // Reading a sound registry

  lemma Stored(st: State, s: Server)
    requires ServersOk(st)
    ensures s in Listing(st.servers, st.next) <==> s.id in st.servers && st.servers[s.id] == s
  {
    ListingMembers(st.servers, st.next, s);
    if s.id in st.servers && st.servers[s.id] == s {
      assert ServerOk(st, s.id);
    }
  }

  lemma Found(st: State, name: string)
    requires ServersOk(st)
    ensures var r := ByName(st, name);
      if r.Some? then r.value.id in st.servers && st.servers[r.value.id] == r.value && r.value.name == name
      else forall id :: id in st.servers ==> st.servers[id].name != name
  {
    FindByNameFinds(Listing(st.servers, st.next), name);
    var r := ByName(st, name);
    if r.Some? {
      Stored(st, r.value);
    } else {
      forall id | id in st.servers ensures st.servers[id].name != name {
        assert ServerOk(st, id);
        Stored(st, st.servers[id]);
      }
    }
  }

  /** Reading a stored row's profiles gives the stored list. */
  lemma ReadsAsStored(st: State, id: nat)
    requires ServersOk(st) && id in st.servers
    ensures var s := st.servers[id];
      ProfilesOf(s) == s.profiles && s.primary in s.profiles && {s.primary} + SetOf(s.profiles) == SetOf(s.profiles) &&
      PortsDistinct(SetOf(s.profiles)) && s.id == id
  {
    hide Trim, Blank, PortsDistinct;
    var s := st.servers[id];
    assert ServerOk(st, id);
    assert {s.primary} + SetOf(s.profiles) == SetOf(s.profiles);
  }

  lemma LinkedBackend(st: State, id: nat)
    requires Agreement(st) && Linked(st, id)
    ensures id in st.servers && !st.servers[id].proxy && Reality in SetOf(st.servers[id].profiles)
    ensures !Blank(st.servers[id].serviceUuid)
  {
    var k :| k in st.links && k.1 == id;
    assert LinkOk(st, k);
  }

  // ---------------------------------------------------------------------------------------------
  // Rewriting one row

  /** Same row up to profiles, and not newly enabled. */
  predicate Reprofiled(old_: Server, s: Server) {
    s == old_.(primary := s.primary, profiles := s.profiles, enabled := s.enabled) && (s.enabled ==> old_.enabled)
  }

  ghost predicate Linked(st: State, id: nat) {
    exists k :: k in st.links && k.1 == id
  }

  lemma NormalizedIsListed(s: Server)
    ensures var n := Normalized(s);
      n.profiles == InOrder(SetOf(n.profiles)) && SetOf(n.profiles) == {s.primary} + SetOf(s.profiles)
  {
    InOrderHasSameMembers({s.primary} + SetOf(s.profiles));
  }

  lemma UpdateKeepsServers(st: State, s: Server)
    requires ServersOk(st) && s.id in st.servers
    requires PortsDistinct({s.primary} + SetOf(s.profiles))
    ensures ServersOk(Update(st, s).0)
  {
    NormalizedIsListed(s);
    var st' := Update(st, s).0;
    forall id | id in st'.servers ensures ServerOk(st', id) {
      assert ServerOk(st, id);
    }
  }

  /** The row keeps its role and its REALITY keys, and is not newly enabled. */
  predicate KeepsReality(a: Server, b: Server) {
    a.proxy == b.proxy && a.privateKey == b.privateKey && a.publicKey == b.publicKey &&
      a.shortIds == b.shortIds && (b.enabled ==> a.enabled)
  }

  lemma RealityTransfers(st: State, st': State)
    requires RealityAgree(st) && st'.servers.Keys <= st.servers.Keys
    requires forall id :: id in st'.servers ==> KeepsReality(st.servers[id], st'.servers[id])
    ensures RealityAgree(st')
  {
    forall a, b | a in st'.servers && b in st'.servers && Peers(st'.servers[a], st'.servers[b])
      ensures SameReality(st'.servers[a], st'.servers[b])
    {
      assert Peers(st.servers[a], st.servers[b]);
    }
  }

  lemma VlessTransfers(st: State, st': State)
    requires VlessAgree(st) && st'.servers.Keys <= st.servers.Keys
    requires forall id :: id in st'.servers ==>
      st'.servers[id].proxy == st.servers[id].proxy && st'.servers[id].vless == st.servers[id].vless
    ensures VlessAgree(st')
  {
    forall a, b | a in st'.servers && b in st'.servers && OneCluster(st'.servers[a], st'.servers[b])
      ensures Trimmed(st'.servers[a].vless) == Trimmed(st'.servers[b].vless)
    {
      assert OneCluster(st.servers[a], st.servers[b]);
    }
  }

  lemma PoolsTransfer(st: State, st': State)
    requires LinksOk(st) && PoolsAgree(st) && LinksOk(st') && st'.links.Keys <= st.links.Keys
    requires forall k :: k in st'.links ==> KeepsReality(st.servers[k.1], st'.servers[k.1])
    requires forall k :: k in st'.links ==> st.servers[k.1].serviceUuid == st'.servers[k.1].serviceUuid
    ensures PoolsAgree(st')
  {
    forall k, m | k in st'.links && m in st'.links && k.0 == m.0 ensures SamePool(st'.servers[k.1], st'.servers[m.1]) {
      assert SamePool(st.servers[k.1], st.servers[m.1]);
    }
  }

  lemma UpdateReplaces(st: State, s: Server)
    requires s.id in st.servers
    ensures var (st', ok) := Update(st, s);
      st' == if ok then st.(servers := st.servers[s.id := Normalized(s)]) else st
  {
  }

  lemma ReplaceKeeps(st: State, st': State, n: Server)
    requires Agreement(st) && n.id in st.servers && Reprofiled(st.servers[n.id], n)
    requires st' == st.(servers := st.servers[n.id := n])
    requires Linked(st, n.id) ==> Reality in n.profiles
    ensures Agreement(st')
  {
    hide Trim, SetOf, SameReality, Trimmed, RealityAgree, VlessAgree;
    forall k | k in st'.links ensures LinkOk(st', k) {
      assert LinkOk(st, k);
    }
    RealityTransfers(st, st');
    VlessTransfers(st, st');
    PoolsTransfer(st, st');
  }

  lemma ReprofileKeeps(st: State, s: Server)
    requires Sound(st) && s.id in st.servers && Reprofiled(st.servers[s.id], s)
    requires PortsDistinct({s.primary} + SetOf(s.profiles))
    requires Linked(st, s.id) ==> Reality in {s.primary} + SetOf(s.profiles)
    ensures Sound(Update(st, s).0)
  {
    UpdateKeepsServers(st, s);
    UpdateReplaces(st, s);
    if Update(st, s).1 {
      NormalizedIsListed(s);
      assert Reality in {s.primary} + SetOf(s.profiles) ==> Reality in SetOf(Normalized(s).profiles);
      ReplaceKeeps(st, Update(st, s).0, Normalized(s));
    }
  }

  // ---------------------------------------------------------------------------------------------
  // The shared VLESS Encryption pair

  lemma {:induction false} SetVlessRows(servers: map<nat, Server>, ids: seq<nat>, pair: Pair)
    requires forall i :: 0 <= i < |ids| ==> ids[i] in servers
    ensures var r := SetVless(servers, ids, pair);
      && r.Some? && r.value.Keys == servers.Keys
      && forall id :: id in servers ==> r.value[id] == if id in ids then servers[id].(vless := pair) else servers[id]
  {
    if ids != [] {
      SetVlessRows(servers, ids[..|ids| - 1], pair);
      assert ids == ids[..|ids| - 1] + [ids[|ids| - 1]];
    }
  }

  lemma VpnIds(st: State)
    requires ServersOk(st)
    ensures forall i :: 0 <= i < |VpnServers(st)| ==> Ids(VpnServers(st))[i] in st.servers
    ensures forall id :: id in st.servers ==> (id in Ids(VpnServers(st)) <==> !st.servers[id].proxy)
  {
    hide InOrder, Valid, Trim, PortsDistinct, VpnServers, Listing;
    var l := VpnServers(st);
    forall i | 0 <= i < |l| ensures l[i].id in st.servers && st.servers[l[i].id] == l[i] && !l[i].proxy {
      VpnServersMembers(st, l[i]);
      Stored(st, l[i]);
    }
    forall id | id in st.servers && !st.servers[id].proxy ensures id in Ids(l) {
      assert ServerOk(st, id);
      VpnServersMembers(st, st.servers[id]);
      Stored(st, st.servers[id]);
      var i :| 0 <= i < |l| && l[i] == st.servers[id];
      assert Ids(l)[i] == id;
    }
  }

  lemma ClusterPairIsFull(l: seq<Server>, generated: Option<Pair>)
    requires VlessParity(l) && ClusterPair(l, generated).Some?
    ensures var p := ClusterPair(l, generated).value;
      Trimmed(p) == p && !Blank(p.client) && !Blank(p.server)
  {
    HolderHolds(l);
    var p := if Holder(l).Some? then Holder(l).value.vless else generated.value;
    TrimIdempotent(p.client);
    TrimIdempotent(p.server);
  }

  /** All vpn servers end up with one complete pair, and nothing else changes. */
  lemma EnsureVlessStores(st: State, target: Server, generated: Option<Pair>)
    requires ServersOk(st) && target.id in st.servers && st.servers[target.id] == target
    ensures var (st', target', ok) := EnsureVless(st, target, generated);
      && (!ok ==> st' == st)
      && (ok ==> exists pair: Pair ::
        && Trimmed(pair) == pair && !Blank(pair.client) && !Blank(pair.server) && Shares(st, st', pair)
        && !target.proxy && target' == target.(vless := pair))
  {
    VpnIds(st);
    var vpn := VpnServers(st);
    var pair := ClusterPair(vpn, generated);
    if EnsureVless(st, target, generated).2 {
      SetVlessRows(st.servers, Ids(vpn), pair.value);
      ClusterPairIsFull(vpn, generated);
      assert Shares(st, EnsureVless(st, target, generated).0, pair.value);
    }
  }

  ghost predicate Shares(st: State, st': State, pair: Pair) {
    && st'.links == st.links && st'.next == st.next && st'.servers.Keys == st.servers.Keys
    && forall id :: id in st.servers ==>
      st'.servers[id] == if st.servers[id].proxy then st.servers[id] else st.servers[id].(vless := pair)
  }

  lemma SharingKeepsRows(st: State, st': State, pair: Pair)
    requires ServersOk(st) && Shares(st, st', pair) && !Blank(pair.client) && !Blank(pair.server)
    ensures ServersOk(st')
  {
    hide InOrder, SetOf, PortsDistinct, Trim;
    forall id | id in st'.servers ensures ServerOk(st', id) {
      assert ServerOk(st, id);
    }
  }

  lemma SharingKeepsAgreement(st: State, st': State, pair: Pair)
    requires Agreement(st) && Shares(st, st', pair)
    ensures Agreement(st')
  {
    hide Trim, SameReality, RealityAgree;
    forall k | k in st'.links ensures LinkOk(st', k) {
      assert LinkOk(st, k);
    }
    RealityTransfers(st, st');
    PoolsTransfer(st, st');
    assert VlessAgree(st');
  }

  lemma EnsureForKeeps(st: State, target: Server, profile: Profile, generated: Option<Pair>)
    requires Sound(st) && target.id in st.servers && st.servers[target.id] == target
    ensures var (st', target', ok) := EnsureFor(st, target, profile, generated);
      Sound(st') && (ok ==> target.id in st'.servers && st'.servers[target.id] == target')
  {
    if profile == VlessEnc {
      EnsureVlessStores(st, target, generated);
      var (st', target', ok) := EnsureVless(st, target, generated);
      if ok {
        var pair: Pair :| !Blank(pair.client) && !Blank(pair.server) && Shares(st, st', pair) &&
          target' == target.(vless := pair);
        SharingKeepsRows(st, st', pair);
        SharingKeepsAgreement(st, st', pair);
      }
    }
  }

  // ---------------------------------------------------------------------------------------------
  // Profile commands

  lemma EnableKeeps(st: State, name: string, profile: Option<Profile>, generated: Option<Pair>)
    requires Sound(st)
    ensures Sound(EnableProfile(st, name, profile, generated).0)
  {
    hide EnsureVless, Update, InOrder, Valid, Trim, Agreement;
    Found(st, name);
    var found := ByName(st, name);
    if found.Some? && profile.Some? {
      EnsureForKeeps(st, found.value, profile.value, generated);
      var (st', srv, ok) := EnsureFor(st, found.value, profile.value, generated);
      if ok && !ConflictsOn443(ProfilesOf(srv), profile.value) {
        ReadsAsStored(st', srv.id);
        var l := srv.profiles + [profile.value];
        assert SetOf(l) == SetOf(srv.profiles) + {profile.value};
        assert {srv.primary} + SetOf(l) == {srv.primary} + SetOf(srv.profiles) + {profile.value};
        if Linked(st', srv.id) {
          LinkedBackend(st', srv.id);
        }
        ReprofileKeeps(st', srv.(profiles := l));
      }
    }
  }

  lemma {:induction false} WithoutMembers(l: seq<Profile>, p: Profile, x: Profile)
    ensures x in Without(l, p) <==> x in l && x != p
  {
    if l != [] {
      WithoutMembers(l[..|l| - 1], p, x);
      assert l == l[..|l| - 1] + [l[|l| - 1]];
    }
  }

  lemma LinkedBackendIsAttached(st: State, id: nat)
    requires AllEnabled(st) && Linked(st, id)
    ensures HasAttachedProxy(st, id)
  {
    var k :| k in st.links && k.1 == id;
    assert st.links[k].enabled;
  }

  /** Attaching always enables the link. */
  ghost predicate AllEnabled(st: State) {
    forall k :: k in st.links ==> st.links[k].enabled
  }

  lemma DisableKeeps(st: State, name: string, profile: Option<Profile>)
    requires Sound(st) && AllEnabled(st)
    ensures Sound(DisableProfile(st, name, profile).0)
  {
    hide Update, InOrder, Valid, Trim, Agreement;
    Found(st, name);
    var found := ByName(st, name);
    if found.Some? && profile.Some? && profile.value != found.value.primary {
      var srv := found.value;
      ReadsAsStored(st, srv.id);
      var next := Without(srv.profiles, profile.value);
      forall x ensures x in next <==> x in SetOf(srv.profiles) && x != profile.value {
        WithoutMembers(srv.profiles, profile.value, x);
      }
      assert {srv.primary} + SetOf(next) <= SetOf(srv.profiles);
      if ProfilesAllowed(st, srv, next) {
        if Linked(st, srv.id) {
          LinkedBackend(st, srv.id);
          LinkedBackendIsAttached(st, srv.id);
          assert Reality in next;
        }
        ReprofileKeeps(st, srv.(profiles := next));
      }
    }
  }

  lemma SwitchedPorts(enabled: seq<Profile>, profile: Profile)
    requires PortsDistinct(SetOf(enabled))
    ensures PortsDistinct({profile} + SetOf(Compatible(enabled, profile)))
  {
    forall p
      ensures p in SetOf(Compatible(enabled, profile)) <==> p in enabled && (p == profile || Port(p) != Port(profile))
    {
      CompatibleMembers(enabled, profile, p);
    }
  }

  lemma SwitchKeeps(st: State, name: string, profile: Option<Profile>, generated: Option<Pair>)
    requires Sound(st) && AllEnabled(st)
    ensures Sound(SwitchProfile(st, name, profile, generated).0)
  {
    hide EnsureFor, InOrder, Update, Valid, Trim, Agreement, Compatible, Listing;
    Found(st, name);
    var found := ByName(st, name);
    if found.Some? && profile.Some? {
      EnsureForKeeps(st, found.value, profile.value, generated);
      EnsureForLinks(st, found.value, profile.value, generated);
      var (st', srv, ok) := EnsureFor(st, found.value, profile.value, generated);
      var kept := {profile.value} + SetOf(Compatible(ProfilesOf(srv), profile.value));
      var next := InOrder(kept);
      if ok && ProfilesAllowed(st', srv, next) {
        ReadsAsStored(st', srv.id);
        SwitchedPorts(srv.profiles, profile.value);
        InOrderHasSameMembers(kept);
        assert {profile.value} + SetOf(next) == kept;
        if Linked(st', srv.id) {
          LinkedBackend(st', srv.id);
          LinkedBackendIsAttached(st', srv.id);
          assert Reality in SetOf(next);
        }
        ReprofileKeeps(st', srv.(primary := profile.value, profiles := next));
      }
    }
  }

  lemma EnsureForLinks(st: State, target: Server, profile: Profile, generated: Option<Pair>)
    ensures EnsureFor(st, target, profile, generated).0.links == st.links
  {
  }

  // ---------------------------------------------------------------------------------------------
  // Attaching

  lemma BackendsLinked(st: State, proxy: nat, s: Server)
    requires ServersOk(st) && LinksOk(st) && s in Backends(st, proxy)
    ensures s.id in st.servers && st.servers[s.id] == s && (proxy, s.id) in st.links && !Blank(s.serviceUuid)
  {
    BackendsMembers(st, proxy, s);
    var id: nat :| Attached(st, proxy, id) && id in st.servers && st.servers[id] == s;
    assert ServerOk(st, id) && LinkOk(st, (proxy, id));
  }

  lemma {:induction false} NothingToFill(st: State, l: seq<Server>, uuid: string)
    requires forall s :: s in l ==> !Blank(s.serviceUuid)
    ensures FillUuids(st, l, uuid) == (st, true)
  {
    if l != [] {
      NothingToFill(st, l[..|l| - 1], uuid);
      assert l[|l| - 1] in l;
    }
  }

  /** Giving an unattached backend its service UUID. */
  lemma GivingUuidKeeps(st: State, s: Server)
    requires Sound(st) && s.id in st.servers && s == st.servers[s.id].(serviceUuid := s.serviceUuid)
    requires !Linked(st, s.id)
    ensures Sound(Update(st, s).0)
  {
    UpdateReplaces(st, s);
    assert ServerOk(st, s.id);
    ReadsAsStored(st, s.id);
    assert Normalized(s) == s;
    assert {s.primary} + SetOf(s.profiles) == SetOf(s.profiles);
    UpdateKeepsServers(st, s);
    if Update(st, s).1 {
      UuidKeeps(st, Update(st, s).0, s);
    }
  }

  lemma UuidKeeps(st: State, st': State, s: Server)
    requires Agreement(st) && s.id in st.servers && s == st.servers[s.id].(serviceUuid := s.serviceUuid)
    requires !Linked(st, s.id)
    requires st' == st.(servers := st.servers[s.id := s])
    ensures Agreement(st')
  {
    hide Trim, SameReality, Trimmed, Holds, RealityAgree, VlessAgree;
    forall k | k in st'.links ensures LinkOk(st', k) && k.1 != s.id {
      assert LinkOk(st, k);
    }
    RealityTransfers(st, st');
    VlessTransfers(st, st');
    PoolsTransfer(st, st');
  }

  lemma {:induction false} UuidsAreNotBlank(l: seq<Server>)
    ensures UuidsOf(l).Shared? ==> UuidsOf(l).uuid != "" && Trim(UuidsOf(l).uuid) == UuidsOf(l).uuid
  {
    if l != [] {
      UuidsAreNotBlank(l[..|l| - 1]);
      TrimIdempotent(l[|l| - 1].serviceUuid);
    }
  }

  lemma BlankIsUnlinked(st: State, id: nat)
    requires Agreement(st) && id in st.servers && Blank(st.servers[id].serviceUuid)
    ensures !Linked(st, id)
  {
    forall k | k in st.links ensures k.1 != id {
      assert LinkOk(st, k);
    }
  }

  lemma EnsureUuidKeeps(st: State, backend: Server, existing: seq<Server>, newUuid: string)
    requires Sound(st) && backend.id in st.servers && st.servers[backend.id] == backend
    requires forall s :: s in existing ==> !Blank(s.serviceUuid)
    requires !Blank(newUuid)
    ensures var (st', given, ok) := EnsureUuid(st, backend, existing, newUuid);
      && Sound(st') && st'.links == st.links && st'.servers.Keys == st.servers.Keys
      && (forall id :: id in st.servers && id != backend.id ==> st'.servers[id] == st.servers[id])
      && (ok ==>
        given.id == backend.id && st'.servers[given.id] == given &&
        (UuidsOf(existing) != Several && !backend.proxy ==> !Blank(given.serviceUuid)))
  {
    hide InOrder, Valid, Trim, Agreement, ServersOk;
    var found := UuidsOf(existing);
    if !backend.proxy && found != Several {
      var uuid := if found.Shared? then found.uuid
                  else if !Blank(backend.serviceUuid) then Trim(backend.serviceUuid) else newUuid;
      NothingToFill(st, existing, uuid);
      UuidsAreNotBlank(existing);
      if Blank(backend.serviceUuid) {
        BlankIsUnlinked(st, backend.id);
        GivingUuidKeeps(st, backend.(serviceUuid := uuid));
      }
    }
  }

  lemma {:induction false} WithoutIdMembers(l: seq<Server>, id: nat, x: Server)
    ensures x in WithoutId(l, id) <==> x in l && x.id != id
  {
    if l != [] {
      WithoutIdMembers(l[..|l| - 1], id, x);
      assert l == l[..|l| - 1] + [l[|l| - 1]];
    }
  }

  /** In a pool every two members agree, whatever their places. */
  lemma PoolMembers(l: seq<Server>, a: Server, b: Server)
    requires Pool(l) && a in l && b in l
    ensures SamePool(a, b) && Relayable(a)
  {
  }

  lemma {:induction false} SeveralNeedsTwo(l: seq<Server>)
    requires forall i, j :: 0 <= i < |l| && 0 <= j < |l| ==> SamePool(l[i], l[j])
    ensures UuidsOf(l) != Several
    ensures UuidsOf(l).Shared? ==> exists i :: 0 <= i < |l| && Trim(l[i].serviceUuid) == UuidsOf(l).uuid
  {
    if l != [] {
      SeveralNeedsTwo(l[..|l| - 1]);
      if UuidsOf(l[..|l| - 1]).Shared? {
        var i :| 0 <= i < |l| - 1 && Trim(l[..|l| - 1][i].serviceUuid) == UuidsOf(l[..|l| - 1]).uuid;
        assert SamePool(l[i], l[|l| - 1]);
      }
    }
  }

  lemma BackendsAgree(st: State, proxy: nat)
    requires ServersOk(st) && LinksOk(st) && PoolsAgree(st)
    ensures forall i, j :: 0 <= i < |Backends(st, proxy)| && 0 <= j < |Backends(st, proxy)| ==>
      SamePool(Backends(st, proxy)[i], Backends(st, proxy)[j])
  {
    var l := Backends(st, proxy);
    forall i, j | 0 <= i < |l| && 0 <= j < |l| ensures SamePool(l[i], l[j]) {
      BackendsLinked(st, proxy, l[i]);
      BackendsLinked(st, proxy, l[j]);
      assert SamePool(st.servers[(proxy, l[i].id).1], st.servers[(proxy, l[j].id).1]);
    }
  }

  lemma AttachKeeps(st: State, proxy: string, backend: string, priority: int, newUuid: string)
    requires Sound(st) && AllEnabled(st) && !Blank(newUuid)
    ensures Sound(AttachBackend(st, proxy, backend, priority, newUuid).0)
  {
    hide InOrder, Valid, Trim, EnsureUuid;
    Found(st, proxy);
    Found(st, backend);
    var p, b := ByName(st, proxy), ByName(st, backend);
    if p.Some? && p.value.proxy && b.Some? && Pool([b.value]) {
      var existing := Backends(st, p.value.id);
      forall s | s in existing ensures !Blank(s.serviceUuid) {
        BackendsLinked(st, p.value.id, s);
      }
      EnsureUuidKeeps(st, b.value, existing, newUuid);
      BackendsAgree(st, p.value.id);
      SeveralNeedsTwo(existing);
      var (st', given, ok) := EnsureUuid(st, b.value, existing, newUuid);
      assert [b.value][0] == b.value;
      if ok && Pool(WithoutId(existing, given.id) + [given]) {
        assert st.servers[p.value.id].proxy != st.servers[b.value.id].proxy;
        LinkKeeps(st, st', p.value.id, given, priority);
      }
    }
  }

  /** Linking a backend that agrees with the pool. */
  lemma LinkKeeps(st: State, st': State, proxy: nat, given: Server, priority: int)
    requires Sound(st) && Sound(st') && AllEnabled(st) && st'.links == st.links && st'.servers.Keys == st.servers.Keys
    requires forall id :: id in st.servers && id != given.id ==> st'.servers[id] == st.servers[id]
    requires proxy in st.servers && st.servers[proxy].proxy
    requires given.id in st'.servers && st'.servers[given.id] == given && !Blank(given.serviceUuid)
    requires Pool(WithoutId(Backends(st, proxy), given.id) + [given])
    requires given.id != proxy
    ensures Sound(st'.(links := st'.links[(proxy, given.id) := Link(true, priority)]))
  {
    hide InOrder, Valid, Trim, Backends, ServerOk, Pool, SamePool;
    var done := st'.(links := st'.links[(proxy, given.id) := Link(true, priority)]);
    LinkRowsOk(st', done, proxy, given, priority) by {
      PoolMembers(WithoutId(Backends(st, proxy), given.id) + [given], given, given);
      ReadsAsStored(st', given.id);
    }
    forall k | k in st'.links && k.0 == proxy && k.1 != given.id
      ensures SamePool(st'.servers[k.1], given) && SamePool(given, st'.servers[k.1])
    {
      NewcomerAgrees(st, proxy, given, k);
    }
    LinkedPoolsAgree(st', done, proxy, given, priority);
    SameRows(st', done);
  }

  lemma SameRows(st: State, st': State)
    requires ServersOk(st) && VlessAgree(st) && RealityAgree(st) && st'.servers == st.servers && st'.next == st.next
    ensures ServersOk(st') && VlessAgree(st') && RealityAgree(st')
  {
    hide InOrder, Valid, Trim, PortsDistinct;
    forall id | id in st'.servers ensures ServerOk(st', id) {
      assert ServerOk(st, id);
    }
  }

  lemma NewcomerAgrees(st: State, proxy: nat, given: Server, k: (nat, nat))
    requires ServersOk(st) && LinksOk(st) && AllEnabled(st)
    requires Pool(WithoutId(Backends(st, proxy), given.id) + [given])
    requires k in st.links && k.0 == proxy && k.1 != given.id
    ensures SamePool(st.servers[k.1], given) && SamePool(given, st.servers[k.1])
  {
    hide InOrder, Valid, Trim;
    var pool := WithoutId(Backends(st, proxy), given.id) + [given];
    assert LinkOk(st, k) && ServerOk(st, k.1);
    var x := st.servers[k.1];
    assert Attached(st, proxy, k.1) by { assert k == (proxy, k.1); }
    BackendsMembers(st, proxy, x);
    WithoutIdMembers(Backends(st, proxy), given.id, x);
    PoolMembers(pool, x, given);
    PoolMembers(pool, given, x);
  }

  lemma LinkRowsOk(st': State, done: State, proxy: nat, given: Server, priority: int)
    requires LinksOk(st') && done == st'.(links := st'.links[(proxy, given.id) := Link(true, priority)])
    requires proxy in st'.servers && st'.servers[proxy].proxy
    requires given.id in st'.servers && st'.servers[given.id] == given && !given.proxy
    requires !Blank(given.serviceUuid) && Reality in given.profiles
    ensures LinksOk(done)
  {
    hide Trim;
    forall k | k in done.links ensures LinkOk(done, k) {
      if k != (proxy, given.id) {
        assert LinkOk(st', k);
      }
    }
  }

  lemma LinkedPoolsAgree(st': State, done: State, proxy: nat, given: Server, priority: int)
    requires LinksOk(st') && PoolsAgree(st') && LinksOk(done)
    requires done == st'.(links := st'.links[(proxy, given.id) := Link(true, priority)])
    requires given.id in st'.servers && st'.servers[given.id] == given
    requires forall k :: k in st'.links && k.0 == proxy && k.1 != given.id ==>
      SamePool(st'.servers[k.1], given) && SamePool(given, st'.servers[k.1])
    ensures PoolsAgree(done)
  {
  }

  // ---------------------------------------------------------------------------------------------
  // Cleaning up and adding

  lemma CleanupKeeps(st: State, name: string, ready: bool, removeLocal: bool)
    requires Sound(st)
    ensures Sound(CleanupServer(st, name, ready, removeLocal).0)
  {
    hide Update, InOrder, Valid, Trim, Agreement, ServersOk;
    Found(st, name);
    var s := ByName(st, name);
    if s.Some? && ready {
      if removeLocal {
        RemoveKeeps(st, s.value.id);
      } else {
        var id := s.value.id;
        ReadsAsStored(st, id);
        if Linked(st, id) {
          LinkedBackend(st, id);
        }
        ReprofileKeeps(st, s.value.(enabled := false));
      }
    }
  }

  lemma RemoveKeeps(st: State, id: nat)
    requires Sound(st)
    ensures Sound(Remove(st, id))
  {
    hide InOrder, Valid, Trim, PortsDistinct, SameReality, Trimmed, Holds;
    var st' := Remove(st, id);
    forall i | i in st'.servers ensures ServerOk(st', i) {
      assert ServerOk(st, i);
    }
    forall k | k in st'.links ensures LinkOk(st', k) {
      assert LinkOk(st, k);
    }
  }

  /** The keys of a new server are those of every enabled server of its role. */
  lemma NewKeysMatch(st: State, c: Command, x: Server)
    requires Sound(st) && c.Add? && c.role.Some?
    requires KeysFor(EnabledOfRole(st, c.role.value), c).Some? && x in EnabledOfRole(st, c.role.value)
    ensures var k := KeysFor(EnabledOfRole(st, c.role.value), c).value;
      Trim(k.0) == Trim(x.privateKey) && Trim(k.1) == Trim(x.publicKey) && Trim(k.2) == Trim(x.shortIds)
  {
    var l := EnabledOfRole(st, c.role.value);
    EnabledOfRoleMembers(st, c.role.value, x);
    EnabledOfRoleMembers(st, c.role.value, l[0]);
    Stored(st, x);
    Stored(st, l[0]);
    assert Peers(st.servers[l[0].id], st.servers[x.id]);
  }

  lemma NewPairMatches(st: State, x: Server)
    requires Sound(st) && x.id in st.servers && st.servers[x.id] == x && !x.proxy
    ensures var h := Holder(EnabledOfRole(st, false));
      h.Some? ==>
        Holds(h.value) && CompletePair(h.value.vless) &&
        (Holds(x) ==> Trimmed(h.value.vless) == Trimmed(x.vless))
  {
    var l := EnabledOfRole(st, false);
    HolderHolds(l);
    var h := Holder(l);
    if h.Some? {
      EnabledOfRoleMembers(st, false, h.value);
      Stored(st, h.value);
      assert ServerOk(st, h.value.id);
      if Holds(x) {
        assert OneCluster(st.servers[h.value.id], st.servers[x.id]);
      }
    }
  }

  lemma InsertKeeps(st: State, s: Server)
    requires Sound(st) && s.profiles == [] && s.primary == Reality
    requires forall id :: id in st.servers && Peers(st.servers[id], s) ==>
      SameReality(st.servers[id], s) && SameReality(s, st.servers[id])
    requires forall id :: id in st.servers && OneCluster(st.servers[id], s) ==>
      Trimmed(st.servers[id].vless) == Trimmed(s.vless)
    ensures Sound(Insert(st, s).0)
  {
    hide InOrder, Valid, Trim;
    var (st', ok) := Insert(st, s);
    if ok {
      var n := Normalized(s).(id := st.next);
      NormalizedIsListed(s);
      assert {s.primary} + SetOf(s.profiles) == {Reality};
      NewRowKeeps(st, st', n);
      NewRowAgrees(st, st', n);
    }
  }

  lemma NewRowKeeps(st: State, st': State, n: Server)
    requires ServersOk(st) && st' == State(st.servers[st.next := n], st.links, st.next + 1)
    requires n.id == st.next && Valid(n) && n.profiles == InOrder(SetOf(n.profiles)) && PortsDistinct(SetOf(n.profiles))
    ensures ServersOk(st')
  {
    hide InOrder, Valid, Trim;
    forall id | id in st'.servers ensures ServerOk(st', id) {
      if id != st.next {
        assert ServerOk(st, id);
      }
    }
  }

  lemma NewRowAgrees(st: State, st': State, n: Server)
    requires ServersOk(st) && Agreement(st) && st' == State(st.servers[st.next := n], st.links, st.next + 1)
    requires forall id :: id in st.servers && Peers(st.servers[id], n) ==>
      SameReality(st.servers[id], n) && SameReality(n, st.servers[id])
    requires forall id :: id in st.servers && OneCluster(st.servers[id], n) ==>
      Trimmed(st.servers[id].vless) == Trimmed(n.vless)
    ensures Agreement(st')
  {
    hide InOrder, Valid, Trim, RealityAgree, VlessAgree, PortsDistinct;
    forall id | id in st.servers ensures id != st.next {
      assert ServerOk(st, id);
    }
    forall k | k in st'.links ensures LinkOk(st', k) && k.0 != st.next && k.1 != st.next {
      assert LinkOk(st, k);
    }
    NewRowInReality(st, st', n);
    NewRowInCluster(st, st', n);
    PoolsTransfer(st, st');
  }

  lemma NewRowInReality(st: State, st': State, n: Server)
    requires RealityAgree(st) && st' == State(st.servers[st.next := n], st.links, st.next + 1)
    requires forall id :: id in st.servers && Peers(st.servers[id], n) ==>
      SameReality(st.servers[id], n) && SameReality(n, st.servers[id])
    ensures RealityAgree(st')
  {
    hide Trim;
  }

  lemma NewRowInCluster(st: State, st': State, n: Server)
    requires VlessAgree(st) && st' == State(st.servers[st.next := n], st.links, st.next + 1)
    requires forall id :: id in st.servers && OneCluster(st.servers[id], n) ==>
      Trimmed(st.servers[id].vless) == Trimmed(n.vless)
    ensures VlessAgree(st')
  {
    hide Trim;
  }

  lemma AddKeeps(st: State, c: Command)
    requires Sound(st) && c.Add?
    ensures Sound(AddServer(st, c).0)
  {
    if c.role.Some? && KeysFor(EnabledOfRole(st, c.role.value), c).Some? {
      var existing := EnabledOfRole(st, c.role.value);
      var keys := KeysFor(existing, c).value;
      var holder := if c.role.value then None else Holder(existing);
      var s := Server(0, c.name, c.role.value, true, c.detailsOk, Reality, [], keys.0, keys.1, keys.2, "",
                      if holder.Some? then holder.value.vless else Pair("", ""));
      forall id | id in st.servers && Peers(st.servers[id], s)
        ensures SameReality(st.servers[id], s) && SameReality(s, st.servers[id])
      {
        assert ServerOk(st, id);
        Stored(st, st.servers[id]);
        EnabledOfRoleMembers(st, c.role.value, st.servers[id]);
        NewKeysMatch(st, c, st.servers[id]);
      }
      forall id | id in st.servers && OneCluster(st.servers[id], s)
        ensures Trimmed(st.servers[id].vless) == Trimmed(s.vless)
      {
        assert ServerOk(st, id);
        NewPairMatches(st, st.servers[id]);
      }
      InsertKeeps(st, s);
    }
  }

  // ---------------------------------------------------------------------------------------------
  // Runs

  lemma StepKeeps(st: State, c: Command)
    requires Sound(st) && AllEnabled(st) && WellFormed(c)
    ensures Sound(Step(st, c).0)
  {
    match c
    case Add(_, _, _, _, _, _, _, _, _) => AddKeeps(st, c);
    case Enable(name, profile, generated) => EnableKeeps(st, name, profile, generated);
    case Disable(name, profile) => DisableKeeps(st, name, profile);
    case Switch(name, profile, generated) => SwitchKeeps(st, name, profile, generated);
    case Attach(proxy, backend, priority, newUuid) => AttachKeeps(st, proxy, backend, priority, newUuid);
    case Detach(proxy, backend) =>
      var st' := DetachBackend(st, proxy, backend).0;
      assert st'.servers == st.servers && st'.links.Keys <= st.links.Keys;
      DetachKeeps(st, st');
    case Cleanup(name, ready, removeLocal) => CleanupKeeps(st, name, ready, removeLocal);
  }

  lemma DetachKeeps(st: State, st': State)
    requires Sound(st) && st'.servers == st.servers && st'.next == st.next && st'.links.Keys <= st.links.Keys
    ensures Sound(st')
  {
    forall i | i in st'.servers ensures ServerOk(st', i) {
      assert ServerOk(st, i);
    }
    forall k | k in st'.links ensures LinkOk(st', k) {
      assert LinkOk(st, k);
    }
  }

  lemma {:induction false} FillKeepsLinks(st: State, l: seq<Server>, uuid: string)
    ensures FillUuids(st, l, uuid).0.links == st.links
  {
    if l != [] {
      FillKeepsLinks(st, l[..|l| - 1], uuid);
    }
  }

  lemma StepKeepsEnabled(st: State, c: Command)
    requires AllEnabled(st)
    ensures AllEnabled(Step(st, c).0)
  {
    hide InOrder, Valid, Trim, EnsureFor, EnsureUuid, KeysFor;
    match c
    case Enable(name, profile, generated) =>
      if ByName(st, name).Some? && profile.Some? {
        EnsureForLinks(st, ByName(st, name).value, profile.value, generated);
      }
    case Switch(name, profile, generated) =>
      if ByName(st, name).Some? && profile.Some? {
        EnsureForLinks(st, ByName(st, name).value, profile.value, generated);
      }
    case Attach(proxy, backend, _, newUuid) =>
      if ByName(st, proxy).Some? && ByName(st, backend).Some? {
        EnsureUuidLinks(st, ByName(st, backend).value, Backends(st, ByName(st, proxy).value.id), newUuid);
      }
    case _ =>
  }

  lemma EnsureUuidLinks(st: State, backend: Server, existing: seq<Server>, newUuid: string)
    ensures EnsureUuid(st, backend, existing, newUuid).0.links == st.links
  {
    hide Valid, InOrder, Trim;
    var found := UuidsOf(existing);
    var uuid := if found.Shared? then found.uuid
                else if !Blank(backend.serviceUuid) then Trim(backend.serviceUuid) else newUuid;
    FillKeepsLinks(st, existing, uuid);
  }

  lemma {:induction false} RunKeeps(st: State, commands: seq<Command>)
    requires Sound(st) && AllEnabled(st) && forall c :: c in commands ==> WellFormed(c)
    ensures Sound(Run(st, commands)) && AllEnabled(Run(st, commands))
    decreases |commands|
  {
    if commands != [] {
      StepKeeps(st, commands[0]);
      StepKeepsEnabled(st, commands[0]);
      RunKeeps(Step(st, commands[0]).0, commands[1..]);
    }
  }

  lemma RunIsSound(commands: seq<Command>)
    requires forall c :: c in commands ==> WellFormed(c)
    ensures Sound(Run(EMPTY, commands)) && AllEnabled(Run(EMPTY, commands))
  {
    RunKeeps(EMPTY, commands);
  }

  /** After every run a stored server has its primary profile enabled, a list of profiles that
      normalization leaves alone and that repeats nothing, and at most one profile on any port. */
  lemma ServersStayWellFormed(commands: seq<Command>, id: nat)
    requires forall c :: c in commands ==> WellFormed(c)
    requires id in Run(EMPTY, commands).servers
    ensures var s := Run(EMPTY, commands).servers[id];
      && s.primary in s.profiles
      && EnabledProfiles(Name(s.primary), Csv(s.profiles)) == s.profiles
      && (forall i, j :: 0 <= i < j < |s.profiles| ==>
        s.profiles[i] != s.profiles[j] && Port(s.profiles[i]) != Port(s.profiles[j]))
  {
    hide Run, Step, Agreement, Valid, InOrder, EnabledProfiles, Csv;
    RunIsSound(commands);
    var st := Run(EMPTY, commands);
    ReadsAsStored(st, id);
    var s := st.servers[id];
    CsvRoundTrip(s.primary, s.profiles);
    assert s.profiles == InOrder(SetOf(s.profiles)) by { assert ServerOk(st, id); }
    InOrderHasNoDuplicates(SetOf(s.profiles));
  }

  /** After every run the backends of a proxy are vpn servers with the REALITY profile, and any two
      of them agree on their keys, short ids and service UUID, which is never blank. */
  lemma AttachedBackendsAgree(commands: seq<Command>, proxy: nat, a: nat, b: nat)
    requires forall c :: c in commands ==> WellFormed(c)
    requires (proxy, a) in Run(EMPTY, commands).links && (proxy, b) in Run(EMPTY, commands).links
    ensures var st := Run(EMPTY, commands);
      && proxy in st.servers && st.servers[proxy].proxy
      && a in st.servers && !st.servers[a].proxy && Reality in st.servers[a].profiles
      && b in st.servers && SamePool(st.servers[a], st.servers[b]) && !Blank(st.servers[a].serviceUuid)
  {
    hide Run, Step, ServersOk, Trim;
    RunIsSound(commands);
    var st := Run(EMPTY, commands);
    var k, m := (proxy, a), (proxy, b);
    assert LinkOk(st, k) && LinkOk(st, m);
    assert k.0 == m.0;
  }

  /** After every run all vpn servers that hold a VLESS Encryption pair hold the same complete one. */
  lemma OnePairInTheCluster(commands: seq<Command>, a: nat, b: nat)
    requires forall c :: c in commands ==> WellFormed(c)
    requires a in Run(EMPTY, commands).servers && b in Run(EMPTY, commands).servers
    requires OneCluster(Run(EMPTY, commands).servers[a], Run(EMPTY, commands).servers[b])
    ensures var st := Run(EMPTY, commands);
      Trimmed(st.servers[a].vless) == Trimmed(st.servers[b].vless) && !Blank(st.servers[a].vless.server)
  {
    hide Run, Step, Trim, InOrder;
    RunIsSound(commands);
    assert ServerOk(Run(EMPTY, commands), a);
  }

  /** The parity checks before adding a server or enabling VLESS Encryption never refuse after a run. */
  lemma ParityChecksPass(commands: seq<Command>, proxy: bool)
    requires forall c :: c in commands ==> WellFormed(c)
    ensures var st := Run(EMPTY, commands);
      RealityParity(EnabledOfRole(st, proxy)) && VlessParity(VpnServers(st)) && VlessParity(EnabledOfRole(st, false))
  {
    hide Run, Step, InOrder;
    RunIsSound(commands);
    var st := Run(EMPTY, commands);
    SoundIsInParity(st, EnabledOfRole(st, proxy), proxy) by {
      forall s | s in EnabledOfRole(st, proxy) ensures StoredRow(st, s) && s.enabled && s.proxy == proxy {
        EnabledOfRoleMembers(st, proxy, s);
        Stored(st, s);
      }
    }
    forall s | s in EnabledOfRole(st, false) ensures StoredRow(st, s) && !s.proxy {
      EnabledOfRoleMembers(st, false, s);
      Stored(st, s);
    }
    forall s | s in VpnServers(st) ensures StoredRow(st, s) && !s.proxy {
      VpnServersMembers(st, s);
      Stored(st, s);
    }
    SoundIsInVlessParity(st, EnabledOfRole(st, false));
    SoundIsInVlessParity(st, VpnServers(st));
  }

  predicate StoredRow(st: State, s: Server) {
    s.id in st.servers && st.servers[s.id] == s
  }

  lemma SoundIsInParity(st: State, l: seq<Server>, proxy: bool)
    requires RealityAgree(st) && forall s :: s in l ==> StoredRow(st, s) && s.enabled && s.proxy == proxy
    ensures RealityParity(l)
  {
    hide Trim;
    forall i, j | 0 <= i < |l| && 0 <= j < |l| ensures SameReality(l[i], l[j]) {
      assert StoredRow(st, l[i]) && StoredRow(st, l[j]);
      assert Peers(st.servers[l[i].id], st.servers[l[j].id]);
    }
  }

  lemma SoundIsInVlessParity(st: State, l: seq<Server>)
    requires VlessAgree(st) && ServersOk(st) && forall s :: s in l ==> StoredRow(st, s) && !s.proxy
    ensures VlessParity(l)
  {
    hide Trim, InOrder, PortsDistinct;
    forall i | 0 <= i < |l| ensures CompletePair(l[i].vless) {
      assert StoredRow(st, l[i]);
      assert ServerOk(st, l[i].id);
    }
    forall i, j | 0 <= i < |l| && 0 <= j < |l| && Holds(l[i]) && Holds(l[j])
      ensures Trimmed(l[i].vless) == Trimmed(l[j].vless)
    {
      assert StoredRow(st, l[i]) && StoredRow(st, l[j]);
      assert OneCluster(st.servers[l[i].id], st.servers[l[j].id]);
    }
  }

  /** So on a vpn server enabling VLESS Encryption fails only when no server holds a pair and none
      could be generated. */
  lemma VlessFailsOnlyWithoutPair(commands: seq<Command>, id: nat, generated: Option<Pair>)
    requires forall c :: c in commands ==> WellFormed(c)
    requires id in Run(EMPTY, commands).servers && !Run(EMPTY, commands).servers[id].proxy
    ensures var st := Run(EMPTY, commands);
      EnsureVless(st, st.servers[id], generated).2 <==> ClusterPair(VpnServers(st), generated).Some?
  {
    hide Run, Step, InOrder, Trim;
    RunIsSound(commands);
    ParityChecksPass(commands, false);
    var st := Run(EMPTY, commands);
    VpnIds(st);
    VpnServersMembers(st, st.servers[id]);
    ReadsAsStored(st, id);
    Stored(st, st.servers[id]);
    var pair := ClusterPair(VpnServers(st), generated);
    if pair.Some? {
      SetVlessRows(st.servers, Ids(VpnServers(st)), pair.value);
    }
  }
}
