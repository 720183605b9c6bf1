/** What registry commands achieve when they succeed, and the relay a proxy gets. */
module RegistryEffects {
  import opened Rows
  import opened Text
  import opened Profiles
  import opened Registry
  import opened RegistryRuns

  // ---------------------------------------------------------------------------------------------
  // What a command that succeeds achieves

  lemma UpdateStores(st: State, s: Server)
    requires s.id in st.servers && Update(st, s).1
    ensures var st' := Update(st, s).0;
      st'.servers == st.servers[s.id := s.(profiles := InOrder({s.primary} + SetOf(s.profiles)))] &&
        st'.links == st.links && st'.next == st.next
  {
    hide Valid, InOrder;
  }

  lemma EnsureForKeepsProfiles(st: State, target: Server, profile: Profile, generated: Option<Pair>)
    requires ServersOk(st) && target.id in st.servers && st.servers[target.id] == target
    requires EnsureFor(st, target, profile, generated).2
    ensures var (st', target', _) := EnsureFor(st, target, profile, generated);
      && st'.servers.Keys == st.servers.Keys && target'.id == target.id && target'.primary == target.primary &&
        target'.profiles == target.profiles
      && forall id :: id in st.servers ==> st'.servers[id] == st.servers[id].(vless := st'.servers[id].vless)
  {
    hide EnsureVless;
    if profile == VlessEnc {
      EnsureVlessStores(st, target, generated);
      var (st', target', ok) := EnsureVless(st, target, generated);
      var pair: Pair :| Shares(st, st', pair) && target' == target.(vless := pair);
    }
  }

  /** Enabling adds exactly the profile to the server and keeps its primary. Other servers change at
      most in their pair. */
  lemma EnablingDoes(st: State, name: string, p: Profile, generated: Option<Pair>, id: nat)
    requires Sound(st) && ByName(st, name).Some? && id in st.servers && EnableProfile(st, name, Some(p), generated).1
    ensures var s, s' := st.servers[id], EnableProfile(st, name, Some(p), generated).0.servers;
      && id in s'
      && s'[id] == s.(vless := s'[id].vless,
           profiles := if id == ByName(st, name).value.id then InOrder(SetOf(s.profiles) + {p}) else s.profiles)
  {
    hide EnsureFor, InOrder, Update, ConflictsOn443, Agreement, Trim, Listing;
    Found(st, name);
    var target := ByName(st, name).value;
    EnsureForKeepsProfiles(st, target, p, generated);
    EnsureForKeeps(st, target, p, generated);
    var (st', srv, _) := EnsureFor(st, target, p, generated);
    ReadsAsStored(st', srv.id);
    EnableStores(st', srv, p);
  }

  /** Switching makes the profile the primary and drops exactly the profiles that need its port. */
  lemma SwitchingDoes(st: State, name: string, p: Profile, generated: Option<Pair>, id: nat)
    requires Sound(st) && ByName(st, name).Some? && id in st.servers && SwitchProfile(st, name, Some(p), generated).1
    ensures var s, s' := st.servers[id], SwitchProfile(st, name, Some(p), generated).0.servers;
      && id in s'
      && (id == ByName(st, name).value.id ==> s'[id].primary == p && SetOf(s'[id].profiles) == Switched(s.profiles, p))
      && (id != ByName(st, name).value.id ==> s'[id] == s.(vless := s'[id].vless))
  {
    hide EnsureFor, InOrder, Update, ProfilesAllowed, Agreement, Compatible, Trim, Listing, SetOf, PortsDistinct;
    Found(st, name);
    var target := ByName(st, name).value;
    EnsureForKeepsProfiles(st, target, p, generated);
    EnsureForKeeps(st, target, p, generated);
    var (st', srv, _) := EnsureFor(st, target, p, generated);
    ReadsAsStored(st', srv.id);
    SwitchStores(st', srv, p);
  }

  /** The profiles after a switch. */
  function Switched(enabled: seq<Profile>, p: Profile): set<Profile> {
    {p} + set q | q in enabled && Port(q) != Port(p)
  }

  lemma EnableStores(st: State, srv: Server, p: Profile)
    requires srv.id in st.servers && ProfilesOf(srv) == srv.profiles
    requires {srv.primary} + SetOf(srv.profiles) == SetOf(srv.profiles)
    ensures var s := srv.(profiles := ProfilesOf(srv) + [p]);
      Update(st, s).1 ==>
        Update(st, s).0.servers == st.servers[srv.id := srv.(profiles := InOrder(SetOf(srv.profiles) + {p}))]
  {
    hide InOrder, Update;
    var s := srv.(profiles := srv.profiles + [p]);
    assert SetOf(s.profiles) == SetOf(srv.profiles) + {p};
    assert {srv.primary} + SetOf(s.profiles) == SetOf(srv.profiles) + {p};
    if Update(st, s).1 {
      UpdateStores(st, s);
    }
  }

  lemma SwitchStores(st: State, srv: Server, p: Profile)
    requires srv.id in st.servers && ProfilesOf(srv) == srv.profiles && PortsDistinct(SetOf(srv.profiles))
    ensures var next := InOrder({p} + SetOf(Compatible(ProfilesOf(srv), p)));
      var s := srv.(primary := p, profiles := next);
      Update(st, s).1 ==> exists n: Server ::
        Update(st, s).0.servers == st.servers[srv.id := n] && n.primary == p &&
          SetOf(n.profiles) == Switched(srv.profiles, p)
  {
    hide InOrder, Update;
    var kept := {p} + SetOf(Compatible(srv.profiles, p));
    forall q ensures q in kept <==> q in Switched(srv.profiles, p) {
      CompatibleMembers(srv.profiles, p, q);
    }
    var next := InOrder(kept);
    InOrderHasSameMembers(kept);
    assert {p} + SetOf(next) == kept;
    var s := srv.(primary := p, profiles := next);
    if Update(st, s).1 {
      UpdateStores(st, s);
      assert Update(st, s).0.servers == st.servers[srv.id := s.(profiles := next)];
    }
  }

  /** Disabling removes exactly the profile; a backend that is attached keeps REALITY. */
  lemma DisablingDoes(st: State, name: string, p: Profile)
    requires Sound(st) && ByName(st, name).Some? && DisableProfile(st, name, Some(p)).1
    ensures var s, st' := ByName(st, name).value, DisableProfile(st, name, Some(p)).0;
      && p != s.primary && s.id in st'.servers
      && SetOf(st'.servers[s.id].profiles) == SetOf(s.profiles) - {p}
      && st'.servers - {s.id} == st.servers - {s.id} && st'.links == st.links
  {
    hide InOrder, Update, ProfilesAllowed, Agreement, Trim, Listing;
    Found(st, name);
    var srv := ByName(st, name).value;
    ReadsAsStored(st, srv.id);
    var next := Without(srv.profiles, p);
    forall x ensures x in SetOf(next) <==> x in SetOf(srv.profiles) - {p} {
      WithoutMembers(srv.profiles, p, x);
    }
    assert {srv.primary} + SetOf(next) == SetOf(srv.profiles) - {p};
    if p in srv.profiles {
      UpdateStores(st, srv.(profiles := next));
      InOrderHasSameMembers({srv.primary} + SetOf(next));
    } else {
      assert SetOf(srv.profiles) - {p} == SetOf(srv.profiles);
    }
  }

  /** An attached backend is in the proxy's pool with the given priority, and is gone once detached. */
  lemma AttachingAndDetachingDo(st: State, proxy: string, backend: string, priority: int, newUuid: string)
    requires Sound(st) && AllEnabled(st) && !Blank(newUuid) && AttachBackend(st, proxy, backend, priority, newUuid).1
    ensures var st' := AttachBackend(st, proxy, backend, priority, newUuid).0;
      var p, b := ByName(st, proxy).value.id, ByName(st, backend).value.id;
      && b in st'.servers && st'.servers[b] in Backends(st', p) && Priority(st', p, b) == priority
      && st'.links == st.links[(p, b) := Link(true, priority)]
    ensures var st' := AttachBackend(st, proxy, backend, priority, newUuid).0;
      var p, b := ByName(st, proxy).value.id, ByName(st, backend).value.id;
      !Attached(st'.(links := st'.links - {(p, b)}), p, b)
  {
    hide InOrder, EnsureUuid, Trim, Listing, Valid, Pool, SamePool, Backends;
    Found(st, proxy);
    Found(st, backend);
    var p, b := ByName(st, proxy).value, ByName(st, backend).value;
    var existing := Backends(st, p.id);
    forall s | s in existing ensures !Blank(s.serviceUuid) {
      BackendsLinked(st, p.id, s);
    }
    EnsureUuidKeeps(st, b, existing, newUuid);
    AttachKeeps(st, proxy, backend, priority, newUuid);
    var st' := AttachBackend(st, proxy, backend, priority, newUuid).0;
    assert st'.links == st.links[(p.id, b.id) := Link(true, priority)];
    assert ServerOk(st', b.id);
    assert Attached(st', p.id, b.id);
    BackendsMembers(st', p.id, st'.servers[b.id]);
  }

  /** A server added to a sound registry is found under its name, enabled, with REALITY as its only
      profile, in parity with every enabled server of its role, and sharing the cluster's pair. */
  lemma AddingDoes(st: State, c: Command)
    requires Sound(st) && c.Add? && AddServer(st, c).1
    ensures var st' := AddServer(st, c).0;
      && st.next in st'.servers && st.next !in st.servers && st'.servers == st.servers[st.next := st'.servers[st.next]]
      && var s := st'.servers[st.next];
      && s.name == c.name && s.enabled && s.profiles == [Reality] && c.role == Some(s.proxy)
      && (forall id :: id in st.servers && Peers(st.servers[id], s) ==> SameReality(st.servers[id], s))
      && (!s.proxy && Holder(EnabledOfRole(st, false)).Some? ==> Holds(s))
  {
    hide InOrder, Trim, KeysFor, Valid, EnabledOfRole, Listing, SameReality;
    AddKeeps(st, c);
    var st' := AddServer(st, c).0;
    forall id | id in st.servers ensures id != st.next {
      assert ServerOk(st, id);
    }
    HolderHolds(EnabledOfRole(st, false));
    OnlyReality();
    forall id | id in st.servers && Peers(st.servers[id], st'.servers[st.next])
      ensures SameReality(st.servers[id], st'.servers[st.next])
    {
      assert st'.servers[id] == st.servers[id];
      assert RealityAgree(st');
    }
  }

  lemma OnlyReality()
    ensures InOrder({Reality} + SetOf([])) == [Reality]
  {
    assert {Reality} + SetOf([]) == {Reality};
  }

  // ---------------------------------------------------------------------------------------------
  // The relay of a proxy

  datatype Relay = Relay(serviceUuid: string, publicKey: string, shortId: string)

  function FirstShortId(csv: string): string {
    if ParseCSV(csv) == [] then "" else ParseCSV(csv)[0]
  }

  /** buildProxyRelay: everything comes from the first backend. */
  function BuildRelay(st: State, proxy: string): Option<Relay> {
    var p := ByName(st, proxy);
    if p.None? || !p.value.proxy then None
    else
      var l := Backends(st, p.value.id);
      if !Pool(l) || FirstShortId(l[0].shortIds) == "" then None
      else Some(Relay(l[0].serviceUuid, l[0].publicKey, FirstShortId(l[0].shortIds)))
  }

  /** After every run the relay fits every backend of its proxy, and one is built exactly when the
      proxy has backends and they list a short id. */
  lemma RelayFitsEveryBackend(commands: seq<Command>, proxy: string)
    requires forall c :: c in commands ==> WellFormed(c)
    ensures var st := Run(EMPTY, commands); var p := ByName(st, proxy); var r := BuildRelay(st, proxy);
      && (r.Some? <==> p.Some? && p.value.proxy && exists b ::
        b in Backends(st, p.value.id) && FirstShortId(b.shortIds) != "")
      && (r.Some? ==> forall b :: b in Backends(st, p.value.id) ==>
            Trim(b.serviceUuid) == Trim(r.value.serviceUuid) != "" && Trim(b.publicKey) == Trim(r.value.publicKey) &&
            FirstShortId(b.shortIds) == r.value.shortId)
  {
    hide Run, Step, InOrder, Trim, FirstShortId, Backends;
    RunIsSound(commands);
    var st := Run(EMPTY, commands);
    var p := ByName(st, proxy);
    if p.Some? && p.value.proxy {
      var l := Backends(st, p.value.id);
      BackendsAgree(st, p.value.id);
      forall b | b in l
        ensures Relayable(b) && !Blank(b.serviceUuid) && FirstShortId(b.shortIds) == FirstShortId(l[0].shortIds)
      {
        BackendsLinked(st, p.value.id, b);
        ReadsAsStored(st, b.id);
        assert LinkOk(st, (p.value.id, b.id));
        assert SamePool(b, l[0]);
        SameShortId(b.shortIds, l[0].shortIds);
      }
    }
  }

  lemma SameShortId(a: string, b: string)
    requires Trim(a) == Trim(b)
    ensures FirstShortId(a) == FirstShortId(b)
  {
    hide Trim;
    ParseCSVTrim(a);
    ParseCSVTrim(b);
  }
}
