/** The compiler from a server description to an Xray configuration (internal/xraycfg/render.go). */
module XrayConfig {
  import opened Rows
  import opened Text
  import opened Sorting
  import opened Profiles
  import Base64

  // ---------------------------------------------------------------------------------------------
  // Input

  datatype Preset = Ru | Cn

  datatype User = User(username: string, uuid: string, email: string, enabled: bool)

  datatype Service = Service(uuid: string, email: string)

  datatype Relay = Relay(
    address: string, port: int, serviceUuid: string, serverName: string, publicKey: string, shortId: string)

  datatype Limit = Limit(afterBytes: int, bytesPerSec: int, burstBytesPerSec: int)

  datatype TlsFiles = TlsFiles(cert: string, key: string, fallback: string)

  /** Profile, role and preset names come normalized, with None for unsupported ones; the name of the
      security profile comes as it was given. */
  datatype Spec = Spec(
    proxy: bool, preset: Option<Preset>, domain: string,
    privateKey: string, serverName: string, target: string, minVersionOk: bool, shortIds: seq<string>,
    serverDecryption: string, security: string, dns: seq<string>,
    limits: seq<Limit>, profiles: seq<Option<Profile>>, apiPort: int, tls: TlsFiles,
    users: seq<User>, services: seq<Service>, relay: Option<Relay>)

  // ---------------------------------------------------------------------------------------------
  // Output

  datatype InTag = ApiIn | Of(profile: Profile)

  datatype OutTag = Direct | Block | ApiOut | ForeignPool

  datatype Client = Client(id: string, email: string, flow: string)

  datatype Stream =
    | ApiStream
    | RealityStream(privateKey: string, shortIds: seq<string>, serverName: string, target: string)
    | XhttpStream
    | TlsStream(tls: TlsFiles)

  datatype Inbound = Inbound(tag: InTag, port: int, clients: seq<Client>, decryption: string, stream: Stream)

  datatype Condition =
    | FromInbounds(tags: seq<InTag>)
    | AnyIpv6
    | Bittorrent
    | PublicTrackers
    | DirectDomains(preset: Preset)
    | DirectIps(preset: Preset)

  datatype Rule = Rule(condition: Condition, outbound: OutTag)

  datatype Config = Config(inbounds: seq<Inbound>, outbounds: seq<OutTag>, rules: seq<Rule>, dns: Option<seq<string>>)

  /** The tag as Xray sees it. */
  function TagName(t: InTag): string {
    match t
    case ApiIn => "api"
    case Of(p) => InboundTag(p)
  }

  lemma TagNamesDiffer(a: InTag, b: InTag)
    ensures TagName(a) == TagName(b) <==> a == b
  {
    var x, y := TagName(a), TagName(b);
    assert |"vless-reality"| == 13 && |"vless-xhttp-plain"| == 17 && |"vless-xhttp-vlessenc"| == 20;
    assert |"vless-tcp-tls-selfsni-web"| == 25;
    assert |x| == |y| <==> a == b;
  }

  // ---------------------------------------------------------------------------------------------
  // Profiles

  function FirstSeen(names: seq<Option<Profile>>): seq<Profile> {
    if names == [] then []
    else
      var earlier := FirstSeen(names[..|names| - 1]);
      var name := names[|names| - 1];
      if name.None? || name.value in earlier then earlier else earlier + [name.value]
  }

  /** The profiles to render, in the order given, REALITY when none is known. */
  function RenderedProfiles(names: seq<Option<Profile>>): seq<Profile> {
    var l := FirstSeen(names);
    if l == [] then [Reality] else l
  }

  lemma {:induction false} FirstSeenIsClean(names: seq<Option<Profile>>)
    ensures NoRepeats(FirstSeen(names))
    ensures SetOf(FirstSeen(names)) == Known(names)
  {
    if names != [] {
      var n := |names| - 1;
      FirstSeenIsClean(names[..n]);
      assert names == names[..n] + [names[n]];
      assert forall p :: Some(p) in names <==> Some(p) in names[..n] || Some(p) == names[n];
      forall p ensures p in SetOf(FirstSeen(names)) <==> p in Known(names) {
        assert p in SetOf(FirstSeen(names[..n])) <==> p in Known(names[..n]);
      }
    }
  }

  lemma RenderedProfilesAreClean(names: seq<Option<Profile>>)
    ensures NoRepeats(RenderedProfiles(names)) && SetOf(RenderedProfiles(names)) == OrDefault(Known(names))
  {
    FirstSeenIsClean(names);
    if FirstSeen(names) == [] {
      assert SetOf([Reality]) == {Reality};
    } else {
      assert FirstSeen(names)[0] in SetOf(FirstSeen(names));
    }
  }

  /** A list of known profiles without repetition is rendered as it is. */
  lemma {:induction false} CleanListIsKept(l: seq<Profile>, names: seq<Option<Profile>>)
    requires NoRepeats(l) && |names| == |l| && forall i :: 0 <= i < |l| ==> names[i] == Some(l[i])
    ensures FirstSeen(names) == l
  {
    if l != [] {
      var n := |l| - 1;
      CleanListIsKept(l[..n], names[..n]);
      assert l == l[..n] + [l[n]];
    }
  }

  method NormalizeEnabledProfiles(names: seq<Option<Profile>>) returns (out: seq<Profile>)
    ensures out == RenderedProfiles(names)
    ensures NoRepeats(out) && SetOf(out) == OrDefault(Known(names))
  {
    var seen: set<Profile> := {};
    out := [];
    for i := 0 to |names|
      invariant out == FirstSeen(names[..i]) && forall p :: p in seen <==> p in out
    {
      assert names[..i + 1][..i] == names[..i];
      if names[i].None? || names[i].value in seen {
        continue;
      }
      seen, out := seen + {names[i].value}, out + [names[i].value];
    }
    assert names[..|names|] == names;
    RenderedProfilesAreClean(names);
    if |out| == 0 {
      out := [Reality];
    }
  }

  // ---------------------------------------------------------------------------------------------
  // Validation

  const DEFAULT_DNS := ["9.9.9.9", "149.112.112.112"]
  const DEFAULT_TLS := TlsFiles("/etc/xray/certs/fullchain.pem", "/etc/xray/certs/privkey.pem", "ovpn-web:8080")
  const DEFAULT_API_PORT := 10085

  predicate HasScheme(s: string) {
    exists i :: 0 <= i <= |s| - 3 && s[i] == ':' && s[i + 1] == '/' && s[i + 2] == '/'
  }

  predicate GoodDns(s: string) {
    !Blank(s) && !HasScheme(Trim(s))
  }

  predicate GoodLimit(l: Limit) {
    l.afterBytes >= 0 && l.bytesPerSec >= 0 && l.burstBytesPerSec >= 0
  }

  predicate GoodUser(u: User) {
    u.enabled ==> !Blank(u.uuid) && !Blank(u.email)
  }

  predicate GoodService(s: Service) {
    !Blank(s.uuid) && !Blank(s.email)
  }

  predicate GoodRelay(r: Relay) {
    && !Blank(r.address) && r.port > 0 && !Blank(r.serviceUuid)
    && !Blank(r.serverName) && !Blank(r.publicKey) && !Blank(r.shortId)
  }

  predicate GoodReality(s: Spec) {
    !Blank(s.privateKey) && !Blank(s.serverName) && '*' !in s.serverName && !Blank(s.target) && s.shortIds != []
  }

  predicate GoodTls(s: Spec) {
    !Blank(s.domain) && !Blank(s.tls.cert) && !Blank(s.tls.key) && !Blank(s.tls.fallback)
  }

  const MINIMAL := "minimal"
  const OFF := "off"

  /** The name in its normal form, or nothing for an unsupported name. */
  function NormalizeSecurity(raw: string): string {
    var name := Lower(Trim(raw));
    if name == "" || name == MINIMAL then MINIMAL else if name == OFF then OFF else ""
  }

  /** The security profile a spec is checked against: no name means minimal. */
  function CheckedSecurity(s: Spec): string {
    if s.security == "" then MINIMAL else s.security
  }

  /** What a spec for some profiles must satisfy. */
  predicate ValidSpec(s: Spec, profiles: seq<Profile>) {
    && s.minVersionOk
    && (CheckedSecurity(s) == MINIMAL || CheckedSecurity(s) == OFF)
    && (Reality in profiles ==> GoodReality(s))
    && (CheckedSecurity(s) == MINIMAL ==> s.dns != [] && forall i :: 0 <= i < |s.dns| ==> GoodDns(s.dns[i]))
    && (forall i :: 0 <= i < |s.limits| ==> GoodLimit(s.limits[i]))
    && (SelfSniWeb in profiles ==> Reality !in profiles && GoodTls(s))
    && (VlessEnc in profiles ==> !s.proxy && ValidVlessValue(s.serverDecryption, SERVER_PREFIX))
    && (forall i :: 0 <= i < |s.users| ==> GoodUser(s.users[i]))
    && (forall i :: 0 <= i < |s.services| ==> GoodService(s.services[i]))
    && (s.proxy ==> s.preset.Some? && s.relay.Some? && GoodRelay(s.relay.value))
  }

  method ValidateSpec(s: Spec, profiles: seq<Profile>) returns (ok: bool)
    ensures ok <==> ValidSpec(s, profiles)
  {
    hide Blank, HasScheme, ValidVlessValue;
    if !s.minVersionOk {
      return false;
    }
    var security := if s.security == "" then MINIMAL else s.security;
    if security != MINIMAL && security != OFF {
      return false;
    }
    if Reality in profiles && !GoodReality(s) {
      return false;
    }
    if security == MINIMAL {
      if |s.dns| == 0 {
        return false;
      }
      for i := 0 to |s.dns|
        invariant forall j :: 0 <= j < i ==> GoodDns(s.dns[j])
      {
        if !GoodDns(s.dns[i]) {
          return false;
        }
      }
    }
    for i := 0 to |s.limits|
      invariant forall j :: 0 <= j < i ==> GoodLimit(s.limits[j])
    {
      if !GoodLimit(s.limits[i]) {
        return false;
      }
    }
    if SelfSniWeb in profiles && (Reality in profiles || !GoodTls(s)) {
      return false;
    }
    if VlessEnc in profiles && (s.proxy || !ValidVlessValue(s.serverDecryption, SERVER_PREFIX)) {
      return false;
    }
    for i := 0 to |s.users|
      invariant forall j :: 0 <= j < i ==> GoodUser(s.users[j])
    {
      if !GoodUser(s.users[i]) {
        return false;
      }
    }
    for i := 0 to |s.services|
      invariant forall j :: 0 <= j < i ==> GoodService(s.services[j])
    {
      if !GoodService(s.services[i]) {
        return false;
      }
    }
    ok := s.proxy ==> s.preset.Some? && s.relay.Some? && GoodRelay(s.relay.value);
  }

  // ---------------------------------------------------------------------------------------------
  // Clients

  function EnabledClients(users: seq<User>, flow: string): seq<Client> {
    if users == [] then []
    else
      var u := users[|users| - 1];
      EnabledClients(users[..|users| - 1], flow) + if u.enabled then [Client(u.uuid, u.email, flow)] else []
  }

  function ServiceClients(services: seq<Service>, flow: string): seq<Client> {
    seq(|services|, i requires 0 <= i < |services| => Client(services[i].uuid, services[i].email, flow))
  }

  function EmailOf(c: Client): string {
    c.email
  }

  /** The enabled users and the service users, each once, ordered by email. */
  predicate IsClientList(out: seq<Client>, users: seq<User>, services: seq<Service>, flow: string) {
    SortedBy(out, EmailOf) &&
      multiset(out) == multiset(EnabledClients(users, flow)) + multiset(ServiceClients(services, flow))
  }

  method BuildClientUsers(users: seq<User>, services: seq<Service>, flow: string) returns (out: seq<Client>)
    ensures IsClientList(out, users, services, flow)
  {
    out := [];
    for i := 0 to |users|
      invariant out == EnabledClients(users[..i], flow)
    {
      assert users[..i + 1][..i] == users[..i];
      if !users[i].enabled {
        continue;
      }
      out := out + [Client(users[i].uuid, users[i].email, flow)];
    }
    assert users[..|users|] == users;
    var enabled := out;
    for i := 0 to |services|
      invariant out == enabled + ServiceClients(services, flow)[..i]
    {
      out := out + [Client(services[i].uuid, services[i].email, flow)];
    }
    assert out == enabled + ServiceClients(services, flow);
    SortBySorts(out, EmailOf);
    out := SortBy(out, EmailOf);
  }

  /** Exactly the enabled users and the service users are among the clients. */
  lemma ClientsAreEnabledUsers(out: seq<Client>, users: seq<User>, services: seq<Service>, flow: string, c: Client)
    requires IsClientList(out, users, services, flow)
    ensures c in out <==>
      (exists i :: 0 <= i < |users| && users[i].enabled && c == Client(users[i].uuid, users[i].email, flow)) ||
                          (exists i :: 0 <= i < |services| && c == Client(services[i].uuid, services[i].email, flow))
  {
    hide SortedBy;
    assert c in out <==> c in multiset(out);
    EnabledClientsMembers(users, flow, c);
    var s := ServiceClients(services, flow);
    if i :| 0 <= i < |services| && c == Client(services[i].uuid, services[i].email, flow) {
      assert s[i] == c;
    }
  }

  lemma {:induction false} EnabledClientsMembers(users: seq<User>, flow: string, c: Client)
    ensures c in EnabledClients(users, flow) <==>
            exists i :: 0 <= i < |users| && users[i].enabled && c == Client(users[i].uuid, users[i].email, flow)
  {
    if users != [] {
      var fewer := users[..|users| - 1];
      EnabledClientsMembers(fewer, flow, c);
      if i :| 0 <= i < |fewer| && fewer[i].enabled && c == Client(fewer[i].uuid, fewer[i].email, flow) {
        assert users[i] == fewer[i];
      }
      if i :| 0 <= i < |users| && users[i].enabled && c == Client(users[i].uuid, users[i].email, flow) {
        assert i < |fewer| ==> fewer[i] == users[i];
      }
    }
  }

  // ---------------------------------------------------------------------------------------------
  // Rendering

  const VISION := "xtls-rprx-vision"

  /** The spec with its defaults filled in before validation. */
  function Filled(s: Spec, profiles: seq<Profile>): Spec {
    s.(security := NormalizeSecurity(s.security),
       dns := if NormalizeSecurity(s.security) == MINIMAL && s.dns == [] then DEFAULT_DNS else s.dns,
       tls := if SelfSniWeb in profiles then
                TlsFiles(if Blank(s.tls.cert) then DEFAULT_TLS.cert else s.tls.cert,
                         if Blank(s.tls.key) then DEFAULT_TLS.key else s.tls.key,
                         if Blank(s.tls.fallback) then DEFAULT_TLS.fallback else s.tls.fallback)
              else s.tls)
  }

  function ApiPort(s: Spec): int {
    if s.apiPort == 0 then DEFAULT_API_PORT else s.apiPort
  }

  function ProfileStream(p: Profile, s: Spec, key: string): Stream {
    match p
    case Reality => RealityStream(key, s.shortIds, s.serverName, s.target)
    case PlainXhttp => XhttpStream
    case VlessEnc => XhttpStream
    case SelfSniWeb => TlsStream(s.tls)
  }

  function ProfileInbound(p: Profile, s: Spec, key: string, users: seq<Client>, plainUsers: seq<Client>): Inbound {
    Inbound(Of(p), Port(p), if p == PlainXhttp then plainUsers else users,
            if p == VlessEnc then s.serverDecryption else "none", ProfileStream(p, s, key))
  }

  function ProfileInbounds(profiles: seq<Profile>, s: Spec, key: string, users: seq<Client>,
      plainUsers: seq<Client>): seq<Inbound> {
    seq(|profiles|, i requires 0 <= i < |profiles| => ProfileInbound(profiles[i], s, key, users, plainUsers))
  }

  function ProfileTags(profiles: seq<Profile>): seq<InTag> {
    seq(|profiles|, i requires 0 <= i < |profiles| => Of(profiles[i]))
  }

  function MinimalRules(s: Spec): seq<Rule> {
    if s.security == MINIMAL then [Rule(AnyIpv6, Block), Rule(Bittorrent, Block), Rule(PublicTrackers, Block)] else []
  }

  function ProxyRules(s: Spec, profiles: seq<Profile>): seq<Rule> {
    if s.proxy && s.preset.Some? then
      [Rule(DirectDomains(s.preset.value), Direct), Rule(DirectIps(s.preset.value), Direct),
       Rule(FromInbounds(ProfileTags(profiles)), ForeignPool)]
    else []
  }

  function BaseOutbounds(s: Spec): seq<OutTag> {
    if !s.proxy || s.relay.None? then [Direct, Block, ApiOut] else [Block, Direct, ApiOut, ForeignPool]
  }

  /** The configuration for some profiles, an X25519 key and two client lists. */
  function Compiled(s: Spec, profiles: seq<Profile>, key: string, users: seq<Client>, plainUsers: seq<Client>): Config {
    Config([Inbound(ApiIn, ApiPort(s), [], "", ApiStream)] + ProfileInbounds(profiles, s, key, users, plainUsers),
           BaseOutbounds(s),
           [Rule(FromInbounds([ApiIn]), ApiOut)] + MinimalRules(s) + ProxyRules(s, profiles),
           if s.security == MINIMAL then Some(s.dns) else None)
  }

  ghost function KeyFor(s: Spec, profiles: seq<Profile>): string {
    if Reality in profiles then Base64.NormalKey(s.privateKey) else s.privateKey
  }

  /** Whether a configuration is what a spec compiles to. */
  ghost predicate IsCompiled(c: Config, s: Spec) {
    var profiles := RenderedProfiles(s.profiles);
    var filled := Filled(s, profiles);
    exists users, plainUsers ::
      && IsClientList(users, s.users, s.services, VISION) && IsClientList(plainUsers, s.users, s.services, "")
      && c == Compiled(filled, profiles, KeyFor(s, profiles), users, plainUsers)
  }

  ghost predicate Accepted(s: Spec) {
    ValidSpec(Filled(s, RenderedProfiles(s.profiles)), RenderedProfiles(s.profiles))
  }

  method BuildProfileInbounds(profiles: seq<Profile>, s: Spec, key: string, users: seq<Client>, plainUsers: seq<Client>)
    returns (out: seq<Inbound>)
    ensures out == ProfileInbounds(profiles, s, key, users, plainUsers)
  {
    out := [];
    for i := 0 to |profiles|
      invariant |out| == i && forall j :: 0 <= j < i ==>
        out[j] == ProfileInbound(profiles[j], s, key, users, plainUsers)
    {
      match profiles[i]
      case Reality =>
        out := out + [Inbound(Of(Reality), 443, users, "none", RealityStream(key, s.shortIds, s.serverName, s.target))];
      case PlainXhttp =>
        out := out + [Inbound(Of(PlainXhttp), 13179, plainUsers, "none", XhttpStream)];
      case VlessEnc =>
        out := out + [Inbound(Of(VlessEnc), 13180, users, s.serverDecryption, XhttpStream)];
      case SelfSniWeb =>
        out := out + [Inbound(Of(SelfSniWeb), 443, users, "none", TlsStream(s.tls))];
    }
  }

  method ProfileInboundTags(profiles: seq<Profile>) returns (tags: seq<InTag>)
    ensures tags == ProfileTags(profiles)
  {
    tags := [];
    for i := 0 to |profiles|
      invariant tags == ProfileTags(profiles)[..i]
    {
      tags := tags + [Of(profiles[i])];
    }
  }

  method RenderServer(spec: Spec) returns (config: Option<Config>)
    ensures config.Some? <==> Accepted(spec)
    ensures config.Some? ==> IsCompiled(config.value, spec)
  {
    hide ValidSpec, Blank, FirstSeen, IsClientList, NormalizeSecurity, ProfileInbounds, RenderedProfiles, BaseOutbounds,
         ApiPort, Base64.NormalKey, Filled;
    var profiles := NormalizeEnabledProfiles(spec.profiles);
    var s := Filled(spec, profiles);
    FillingKeeps(spec, profiles);
    var ok := ValidateSpec(s, profiles);
    if !ok {
      return None;
    }
    var key := s.privateKey;
    if Reality in profiles {
      key := Base64.NormalizeX25519KeyBase64(key);
    }
    var users := BuildClientUsers(s.users, s.services, VISION);
    var plainUsers := BuildClientUsers(s.users, s.services, "");
    var rules := [Rule(FromInbounds([ApiIn]), ApiOut)];
    var inbounds := BuildProfileInbounds(profiles, s, key, users, plainUsers);
    var dns: Option<seq<string>> := None;
    if s.security == MINIMAL {
      dns := Some(s.dns);
      rules := rules + [Rule(AnyIpv6, Block), Rule(Bittorrent, Block), Rule(PublicTrackers, Block)];
    }
    if s.proxy {
      if s.preset.None? {
        ProxyNeedsPreset(s, profiles);
        return None;
      }
      var tags := ProfileInboundTags(profiles);
      rules := rules + [Rule(DirectDomains(s.preset.value), Direct), Rule(DirectIps(s.preset.value), Direct),
                        Rule(FromInbounds(tags), ForeignPool)];
    }
    var c := Config([Inbound(ApiIn, ApiPort(s), [], "", ApiStream)] + inbounds, BaseOutbounds(s), rules, dns);
    assert c == Compiled(s, profiles, key, users, plainUsers);
    config := Some(c);
  }

  /** Defaults are for DNS servers and TLS files only. */
  lemma FillingKeeps(s: Spec, profiles: seq<Profile>)
    ensures var f := Filled(s, profiles);
      f.users == s.users && f.services == s.services && f.privateKey == s.privateKey
  {
  }

  lemma ProxyNeedsPreset(s: Spec, profiles: seq<Profile>)
    requires s.proxy && s.preset.None?
    ensures !ValidSpec(s, profiles)
  {
  }
}
