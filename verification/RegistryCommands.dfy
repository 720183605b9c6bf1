/** The registry commands as they run: reading rows, looping over them and writing them back. */
module RegistryCommands {
  import opened Rows
  import opened Text
  import opened Profiles
  import opened Registry

  datatype Field = PrivateKey | PublicKey | ShortIds | ServiceUuid

  /** What servers behind one proxy share, trimmed. */
  datatype RelayKeys = RelayKeys(privateKey: string, publicKey: string, shortIds: string, serviceUuid: string)

  function KeysOf(s: Server): RelayKeys {
    RelayKeys(Trim(s.privateKey), Trim(s.publicKey), Trim(s.shortIds), Trim(s.serviceUuid))
  }

  predicate DiffersIn(x: RelayKeys, y: RelayKeys, withUuid: bool, f: Field) {
    match f
    case PrivateKey => x.privateKey != y.privateKey
    case PublicKey => x.publicKey != y.publicKey
    case ShortIds => x.shortIds != y.shortIds
    case ServiceUuid => withUuid && x.serviceUuid != y.serviceUuid
  }

  function DiffKeys(x: RelayKeys, y: RelayKeys, withUuid: bool): (diff: seq<Field>)
    ensures diff == [] <==>
      x.(serviceUuid := "") == y.(serviceUuid := "") && (withUuid ==> x.serviceUuid == y.serviceUuid)
    ensures forall f :: f in diff <==> DiffersIn(x, y, withUuid, f)
  {
    (if x.privateKey != y.privateKey then [PrivateKey] else []) +
    (if x.publicKey != y.publicKey then [PublicKey] else []) +
    (if x.shortIds != y.shortIds then [ShortIds] else []) +
    (if withUuid && x.serviceUuid != y.serviceUuid then [ServiceUuid] else [])
  }

  /** realityParityDiff: the fields in which a server differs from the base. */
  function RealityParityDiff(base: Server, s: Server, withUuid: bool): (diff: seq<Field>)
    ensures diff == [] <==> SameReality(base, s) && (withUuid ==> Trim(base.serviceUuid) == Trim(s.serviceUuid))
    ensures forall f :: f in diff <==> DiffersIn(KeysOf(base), KeysOf(s), withUuid, f)
  {
    DiffKeys(KeysOf(base), KeysOf(s), withUuid)
  }

  /** Comparing with the first server alone decides whether all pairs agree. */
  method EnsureRealityParityForServers(l: seq<Server>) returns (ok: bool)
    ensures ok <==> RealityParity(l)
  {
    hide Trim;
    if |l| <= 1 {
      return true;
    }
    var issues: seq<(string, seq<Field>)> := [];
    for i := 1 to |l|
      invariant issues == [] <==> forall j :: 0 <= j < i ==> SameReality(l[0], l[j])
    {
      var diff := RealityParityDiff(l[0], l[i], false);
      if diff != [] {
        issues := issues + [(l[i].name, diff)];
      }
    }
    ok := issues == [];
    if ok {
      forall i, j | 0 <= i < |l| && 0 <= j < |l| ensures SameReality(l[i], l[j]) {
        assert SameReality(l[0], l[i]) && SameReality(l[0], l[j]);
      }
    }
  }

  method EnsureVPNBackendsCompatible(l: seq<Server>) returns (ok: bool)
    ensures ok <==> Pool(l)
  {
    hide Trim, ProfilesOf;
    if |l| == 0 {
      return false;
    }
    for i := 0 to |l|
      invariant forall j :: 0 <= j < i ==> Relayable(l[j])
    {
      if !Relayable(l[i]) {
        return false;
      }
    }
    var issues: seq<(string, seq<Field>)> := [];
    for i := 1 to |l|
      invariant issues == [] <==> forall j :: 0 <= j < i ==> SamePool(l[0], l[j])
    {
      var diff := RealityParityDiff(l[0], l[i], true);
      if diff != [] {
        issues := issues + [(l[i].name, diff)];
      }
    }
    ok := issues == [];
    if ok {
      forall i, j | 0 <= i < |l| && 0 <= j < |l| ensures SamePool(l[i], l[j]) {
        assert SamePool(l[0], l[i]) && SamePool(l[0], l[j]);
      }
    }
  }

  /** The scan over the cluster's pairs: whether they are complete and equal, and their first holder. */
  method EnsureVLESSEncryptionParityForServers(l: seq<Server>) returns (ok: bool, baseline: Option<Server>)
    ensures ok <==> VlessParity(l)
    ensures ok ==> baseline == Holder(l)
  {
    hide Trim;
    baseline := None;
    for i := 0 to |l|
      invariant baseline == Holder(l[..i])
      invariant baseline.Some? ==> baseline.value in l && Holds(baseline.value)
      invariant forall j :: 0 <= j < i ==> CompletePair(l[j].vless)
      invariant forall j :: 0 <= j < i && Holds(l[j]) ==>
        baseline.Some? && Trimmed(l[j].vless) == Trimmed(baseline.value.vless)
    {
      assert l[..i + 1][..i] == l[..i];
      if !CompletePair(l[i].vless) {
        return false, baseline;
      }
      if !Holds(l[i]) {
        continue;
      }
      if baseline.None? {
        baseline := Some(l[i]);
        continue;
      }
      if Trimmed(l[i].vless) != Trimmed(baseline.value.vless) {
        var b :| 0 <= b < |l| && l[b] == baseline.value;
        assert Holds(l[b]) && Holds(l[i]);
        return false, baseline;
      }
    }
    assert l[..|l|] == l;
    ok := true;
  }

  /** The UUIDs in use in a pool, stopping at the second one. */
  method CollectUuids(l: seq<Server>) returns (found: Uuids)
    ensures found == UuidsOf(l)
  {
    hide Trim;
    found := Nobody;
    for i := 0 to |l|
      invariant found == UuidsOf(l[..i]) && found != Several
    {
      assert l[..i + 1][..i] == l[..i];
      var u := Trim(l[i].serviceUuid);
      if u == "" {
        continue;
      }
      if found.Nobody? {
        found := Shared(u);
        continue;
      }
      if u != found.uuid {
        assert UuidsOf(l[..i + 1]) == Several;
        SeveralStays(l, i + 1);
        return Several;
      }
    }
    assert l[..|l|] == l;
  }

  lemma {:induction false} SeveralStays(l: seq<Server>, i: nat)
    requires i <= |l| && UuidsOf(l[..i]) == Several
    ensures UuidsOf(l) == Several
    decreases |l|
  {
    hide Trim;
    if i == |l| {
      assert l[..i] == l;
    } else {
      assert l[..|l| - 1][..i] == l[..i];
      SeveralStays(l[..|l| - 1], i);
    }
  }

  class Operator {
    var servers: map<nat, Server>
    var links: map<(nat, nat), Link>
    var next: nat

    ghost function Now(): State
      reads this
    {
      State(servers, links, next)
    }

    constructor ()
      ensures Now() == EMPTY
    {
      servers, links, next := map[], map[], 0;
    }

    function ListServers(): seq<Server>
      reads this
    {
      Listing(servers, next)
    }

    function GetServerByName(name: string): Option<Server>
      reads this
    {
      FindByName(ListServers(), name)
    }

    method ListEnabledServersByRole(proxy: bool) returns (out: seq<Server>)
      ensures out == EnabledOfRole(Now(), proxy)
    {
      var l := ListServers();
      var enabled: seq<Server> := [];
      for i := 0 to |l|
        invariant enabled == Enabled(l[..i])
      {
        assert l[..i + 1][..i] == l[..i];
        if l[i].enabled {
          enabled := enabled + [l[i]];
        }
      }
      assert l[..|l|] == l;
      out := FilterRole(SortByName(enabled), proxy);
    }

    method FilterRole(l: seq<Server>, proxy: bool) returns (out: seq<Server>)
      ensures out == OfRole(l, proxy)
    {
      out := [];
      for i := 0 to |l|
        invariant out == OfRole(l[..i], proxy)
      {
        assert l[..i + 1][..i] == l[..i];
        if l[i].proxy == proxy {
          out := out + [l[i]];
        }
      }
      assert l[..|l|] == l;
    }

    method UpdateServer(s: Server) returns (ok: bool)
      modifies this
      ensures (Now(), ok) == Update(old(Now()), s)
    {
      hide ProfilesOf, Valid;
      var n := Normalized(s);
      if !Valid(n) {
        return false;
      }
      if s.id in servers {
        servers := servers[s.id := n];
      }
      ok := true;
    }

    /** The source's AddServer: the insert fails when the name is taken. */
    method InsertServer(s: Server) returns (ok: bool)
      modifies this
      ensures (Now(), ok) == Insert(old(Now()), s)
    {
      hide ProfilesOf, Valid, FindByName;
      var n := Normalized(s).(id := next);
      if !Valid(n) || GetServerByName(n.name).Some? {
        return false;
      }
      servers, next := servers[next := n], next + 1;
      ok := true;
    }

    /** One transaction: either every listed server gets the pair or none does. */
    method SetVLESSEncryptionForServers(ids: seq<nat>, pair: Pair) returns (ok: bool)
      requires ids != []
      modifies this
      ensures links == old(links) && next == old(next)
      ensures ok <==> SetVless(old(servers), ids, pair).Some?
      ensures servers == if ok then SetVless(old(servers), ids, pair).value else old(servers)
    {
      var tx := servers;
      for i := 0 to |ids|
        invariant SetVless(old(servers), ids[..i], pair) == Some(tx)
        invariant servers == old(servers) && links == old(links) && next == old(next)
      {
        assert ids[..i + 1][..i] == ids[..i];
        if ids[i] !in tx {
          SetVlessFails(servers, ids, i + 1, pair);
          return false;
        }
        tx := tx[ids[i] := tx[ids[i]].(vless := pair)];
      }
      assert ids[..|ids|] == ids;
      servers := tx;
      ok := true;
    }

    method EnsureVLESSEncryptionForServer(target: Server, generated: Option<Pair>) returns (target': Server, ok: bool)
      modifies this
      ensures (Now(), target', ok) == EnsureVless(old(Now()), target, generated)
    {
      hide Trim, Listing, ValidVlessValue, SortByName;
      if target.proxy {
        return target, false;
      }
      var vpn := FilterRole(ListServers(), false);
      vpn := SortByName(vpn);
      if |vpn| == 0 {
        return target, false;
      }
      var parity, holder := EnsureVLESSEncryptionParityForServers(vpn);
      if !parity {
        return target, false;
      }
      var pair: Pair;
      if holder.Some? {
        pair := Trimmed(holder.value.vless);
      } else {
        if generated.None? || !ValidVlessValue(generated.value.client, CLIENT_PREFIX) ||
           !ValidVlessValue(generated.value.server, SERVER_PREFIX)
        {
          return target, false;
        }
        pair := Trimmed(generated.value);
      }
      assert ClusterPair(VpnServers(Now()), generated) == Some(pair);
      ok := SetVLESSEncryptionForServers(Ids(vpn), pair);
      target' := if ok then target.(vless := pair) else target;
    }

    method EnsureForProfile(target: Server, profile: Profile, generated: Option<Pair>) returns (target': Server,
        ok: bool)
      modifies this
      ensures (Now(), target', ok) == EnsureFor(old(Now()), target, profile, generated)
    {
      hide EnsureVless;
      if profile == VlessEnc {
        target', ok := EnsureVLESSEncryptionForServer(target, generated);
      } else {
        target', ok := target, true;
      }
    }

    method ProfileEnable(name: string, profile: Option<Profile>, generated: Option<Pair>) returns (ok: bool)
      modifies this
      ensures (Now(), ok) == EnableProfile(old(Now()), name, profile, generated)
    {
      hide EnsureVless, ProfilesOf, Update, Listing;
      var found := GetServerByName(name);
      if found.None? || profile.None? {
        return false;
      }
      var srv, ready := EnsureForProfile(found.value, profile.value, generated);
      if !ready {
        return false;
      }
      var conflict := ProfileConflictsOn443(ProfilesOf(srv), profile.value);
      if conflict {
        return false;
      }
      ok := UpdateServer(srv.(profiles := ProfilesOf(srv) + [profile.value]));
    }

    method ValidateAttachedBackendProfiles(s: Server, profiles: seq<Profile>) returns (ok: bool)
      ensures ok <==> ProfilesAllowed(Now(), s, profiles)
    {
      if s.proxy {
        return true;
      }
      for i := 0 to |profiles|
        invariant Reality !in profiles[..i]
      {
        assert profiles[..i + 1] == profiles[..i] + [profiles[i]];
        if profiles[i] == Reality {
          return true;
        }
      }
      assert profiles[..|profiles|] == profiles;
      ok := !HasAttachedProxy(State(servers, links, next), s.id);
    }

    method ProfileDisable(name: string, profile: Option<Profile>) returns (ok: bool)
      modifies this
      ensures (Now(), ok) == DisableProfile(old(Now()), name, profile)
    {
      hide ProfilesOf, Update, Listing, ProfilesAllowed;
      var found := GetServerByName(name);
      if found.None? || profile.None? || profile.value == found.value.primary {
        return false;
      }
      var srv := found.value;
      var current := ProfilesOf(srv);
      var rest: seq<Profile> := [];
      var removed := false;
      for i := 0 to |current|
        invariant rest == Without(current[..i], profile.value)
        invariant removed <==> profile.value in current[..i]
        invariant Now() == old(Now())
      {
        assert current[..i + 1][..i] == current[..i] && current[..i + 1] == current[..i] + [current[i]];
        if current[i] == profile.value {
          removed := true;
          continue;
        }
        rest := rest + [current[i]];
      }
      assert current[..|current|] == current;
      if !removed {
        return true;
      }
      var allowed := ValidateAttachedBackendProfiles(srv, rest);
      if !allowed {
        return false;
      }
      ok := UpdateServer(srv.(profiles := rest));
    }

    method ProfileSwitch(name: string, profile: Option<Profile>, generated: Option<Pair>) returns (ok: bool)
      modifies this
      ensures (Now(), ok) == SwitchProfile(old(Now()), name, profile, generated)
    {
      hide EnsureVless, ProfilesOf, Update, Listing, ProfilesAllowed, InOrder;
      var found := GetServerByName(name);
      if found.None? || profile.None? {
        return false;
      }
      var srv, ready := EnsureForProfile(found.value, profile.value, generated);
      if !ready {
        return false;
      }
      var kept := RemoveConflicting443Profiles(ProfilesOf(srv), profile.value);
      var enabled := InOrder({profile.value} + SetOf(kept));
      var allowed := ValidateAttachedBackendProfiles(srv, enabled);
      if !allowed {
        return false;
      }
      ok := UpdateServer(srv.(primary := profile.value, profiles := enabled));
    }

    method FillMissingUuids(l: seq<Server>, uuid: string) returns (ok: bool)
      modifies this
      ensures (Now(), ok) == FillUuids(old(Now()), l, uuid)
    {
      hide Update, Trim;
      ok := true;
      for i := 0 to |l|
        invariant ok && (Now(), true) == FillUuids(old(Now()), l[..i], uuid)
      {
        assert l[..i + 1][..i] == l[..i];
        if !Blank(l[i].serviceUuid) {
          continue;
        }
        ok := UpdateServer(l[i].(serviceUuid := uuid));
        if !ok {
          FillFails(old(Now()), l, i + 1, uuid);
          return;
        }
      }
      assert l[..|l|] == l;
    }

    method EnsureBackendProxyServiceUUID(backend: Server, existing: seq<Server>, newUuid: string)
      returns (backend': Server, ok: bool)
      modifies this
      ensures (Now(), backend', ok) == EnsureUuid(old(Now()), backend, existing, newUuid)
    {
      hide Update, Trim, FillUuids, ProfilesOf;
      if backend.proxy {
        return backend, true;
      }
      var found := CollectUuids(existing);
      if found == Several {
        return backend, true;
      }
      var uuid := if found.Shared? then found.uuid else Trim(backend.serviceUuid);
      if uuid == "" {
        uuid := newUuid;
      }
      SharedIsNotEmpty(existing);
      var filled := FillMissingUuids(existing, uuid);
      if !filled {
        return backend, false;
      }
      if !Blank(backend.serviceUuid) {
        return backend, true;
      }
      var given := backend.(serviceUuid := uuid);
      ok := UpdateServer(given);
      backend' := if ok then Normalized(given) else given;
    }

    method BackendAttach(proxy: string, backend: string, priority: int, newUuid: string) returns (ok: bool)
      modifies this
      ensures (Now(), ok) == AttachBackend(old(Now()), proxy, backend, priority, newUuid)
    {
      hide Trim, EnsureUuid, Listing, Pool, Backends;
      var p := GetServerByName(proxy);
      if p.None? || !p.value.proxy {
        return false;
      }
      var b := GetServerByName(backend);
      if b.None? {
        return false;
      }
      var fit := EnsureVPNBackendsCompatible([b.value]);
      if !fit {
        return false;
      }
      var existing := Backends(State(servers, links, next), p.value.id);
      var given, ready := EnsureBackendProxyServiceUUID(b.value, existing, newUuid);
      if !ready {
        return false;
      }
      var pool: seq<Server> := [];
      label before:
      for i := 0 to |existing|
        invariant pool == WithoutId(existing[..i], given.id)
        invariant Now() == old@before(Now())
      {
        assert existing[..i + 1][..i] == existing[..i];
        if existing[i].id == given.id {
          continue;
        }
        pool := pool + [existing[i]];
      }
      assert existing[..|existing|] == existing;
      fit := EnsureVPNBackendsCompatible(pool + [given]);
      if !fit {
        return false;
      }
      links := links[(p.value.id, given.id) := Link(true, priority)];
      ok := true;
    }

    method BackendDetach(proxy: string, backend: string) returns (ok: bool)
      modifies this
      ensures (Now(), ok) == DetachBackend(old(Now()), proxy, backend)
    {
      hide Listing;
      var p, b := GetServerByName(proxy), GetServerByName(backend);
      if p.None? || b.None? {
        return false;
      }
      links := links - {(p.value.id, b.value.id)};
      ok := true;
    }

    method Cleanup(name: string, ready: bool, removeLocal: bool) returns (ok: bool)
      modifies this
      ensures (Now(), ok) == CleanupServer(old(Now()), name, ready, removeLocal)
    {
      hide Listing, Update;
      var s := GetServerByName(name);
      if s.None? || !ready {
        return false;
      }
      if removeLocal {
        var id := s.value.id;
        servers := map k | k in servers && k != id :: servers[k];
        links := map k | k in links && k.0 != id && k.1 != id :: links[k];
        ok := true;
      } else {
        ok := UpdateServer(s.value.(enabled := false));
      }
    }

    method ServerAdd(c: Command) returns (ok: bool)
      requires c.Add?
      modifies this
      ensures (Now(), ok) == AddServer(old(Now()), c)
    {
      hide Trim, EnabledOfRole, Insert;
      if c.role.None? {
        return false;
      }
      var existing := ListEnabledServersByRole(c.role.value);
      var holder: Option<Server> := None;
      if |existing| > 0 {
        var parity := EnsureRealityParityForServers(existing);
        if !parity {
          return false;
        }
        if !c.role.value {
          parity, holder := EnsureVLESSEncryptionParityForServers(existing);
          if !parity {
            return false;
          }
        }
        if !c.usersAgree {
          return false;
        }
      }
      var keys := KeysFor(existing, c);
      if keys.None? {
        return false;
      }
      ok := InsertServer(Server(0, c.name, c.role.value, true, c.detailsOk, Reality, [], keys.value.0,
                                keys.value.1, keys.value.2, "",
                                if holder.Some? then holder.value.vless else Pair("", "")));
      ok := ok && c.seeded;
    }
  }

  lemma {:induction false} SetVlessFails(servers: map<nat, Server>, ids: seq<nat>, i: nat, pair: Pair)
    requires i <= |ids| && SetVless(servers, ids[..i], pair).None?
    ensures SetVless(servers, ids, pair).None?
    decreases |ids|
  {
    if i == |ids| {
      assert ids[..i] == ids;
    } else {
      assert ids[..|ids| - 1][..i] == ids[..i];
      SetVlessFails(servers, ids[..|ids| - 1], i, pair);
    }
  }

  lemma {:induction false} FillFails(st: State, l: seq<Server>, i: nat, uuid: string)
    requires i <= |l| && !FillUuids(st, l[..i], uuid).1
    ensures FillUuids(st, l, uuid) == FillUuids(st, l[..i], uuid)
    decreases |l|
  {
    hide Trim, Update;
    if i == |l| {
      assert l[..i] == l;
    } else {
      assert l[..|l| - 1][..i] == l[..i];
      FillFails(st, l[..|l| - 1], i, uuid);
    }
  }

  lemma {:induction false} SharedIsNotEmpty(l: seq<Server>)
    ensures UuidsOf(l).Shared? ==> UuidsOf(l).uuid != ""
  {
    hide Trim;
    if l != [] {
      SharedIsNotEmpty(l[..|l| - 1]);
    }
  }
}
