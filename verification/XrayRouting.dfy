/** What a compiled configuration means: distinct inbounds, declared tags, and first-match routing. */
module XrayRouting {
  import opened Rows
  import opened Text
  import opened Sorting
  import opened Profiles
  import opened XrayConfig

  // ---------------------------------------------------------------------------------------------
  // Well-formedness

  predicate DistinctTags(l: seq<Inbound>) {
    forall i, j :: 0 <= i < j < |l| ==> TagName(l[i].tag) != TagName(l[j].tag)
  }

  predicate DistinctPorts(l: seq<Inbound>) {
    forall i, j :: 0 <= i < j < |l| ==> l[i].port != l[j].port
  }

  predicate HasInbound(c: Config, t: InTag) {
    exists i :: 0 <= i < |c.inbounds| && c.inbounds[i].tag == t
  }

  predicate RuleDeclared(c: Config, r: Rule) {
    r.outbound in c.outbounds && (r.condition.FromInbounds? ==> forall t :: t in r.condition.tags ==> HasInbound(c, t))
  }

  predicate DistinctOutbounds(l: seq<OutTag>) {
    forall i, j :: 0 <= i < j < |l| ==> l[i] != l[j]
  }

  lemma CompiledInbounds(s: Spec, profiles: seq<Profile>, key: string, users: seq<Client>, plainUsers: seq<Client>)
    requires NoRepeats(profiles)
    ensures var c := Compiled(s, profiles, key, users, plainUsers);
      && |c.inbounds| == |profiles| + 1 && c.inbounds[0].tag == ApiIn && c.inbounds[0].port == ApiPort(s)
      && (forall i :: 0 <= i < |profiles| ==>
        c.inbounds[i + 1].tag == Of(profiles[i]) && c.inbounds[i + 1].port == Port(profiles[i]))
      && DistinctTags(c.inbounds)
  {
    hide TagName;
    var c := Compiled(s, profiles, key, users, plainUsers);
    forall i, j | 0 <= i < j < |c.inbounds| ensures TagName(c.inbounds[i].tag) != TagName(c.inbounds[j].tag) {
      TagNamesDiffer(c.inbounds[i].tag, c.inbounds[j].tag);
    }
  }

  /** Profiles that are accepted together never need one port twice. */
  lemma AcceptedPortsDiffer(s: Spec, profiles: seq<Profile>, p: Profile, q: Profile)
    requires ValidSpec(s, profiles) && p in profiles && q in profiles && p != q
    ensures Port(p) != Port(q)
  {
    hide Blank, HasScheme, ValidVlessValue, GoodReality, GoodTls;
  }

  predicate PortFree(profiles: seq<Profile>, port: int) {
    forall p :: p in profiles ==> Port(p) != port
  }

  lemma CompiledPorts(s: Spec, profiles: seq<Profile>, key: string, users: seq<Client>, plainUsers: seq<Client>)
    requires NoRepeats(profiles) && ValidSpec(s, profiles)
    ensures DistinctPorts(Compiled(s, profiles, key, users, plainUsers).inbounds) <==> PortFree(profiles, ApiPort(s))
  {
    hide ValidSpec, Port;
    CompiledInbounds(s, profiles, key, users, plainUsers);
    var l := Compiled(s, profiles, key, users, plainUsers).inbounds;
    if PortFree(profiles, ApiPort(s)) {
      forall i, j | 0 <= i < j < |l| ensures l[i].port != l[j].port {
        assert profiles[j - 1] in profiles;
        if i > 0 {
          AcceptedPortsDiffer(s, profiles, profiles[i - 1], profiles[j - 1]);
        }
      }
    } else {
      var p :| p in profiles && Port(p) == ApiPort(s);
      var k :| 0 <= k < |profiles| && profiles[k] == p;
      assert l[0].port == l[k + 1].port;
    }
  }

  lemma CompiledRules(s: Spec, profiles: seq<Profile>, key: string, users: seq<Client>, plainUsers: seq<Client>)
    requires NoRepeats(profiles) && (s.proxy ==> s.relay.Some?)
    ensures var c := Compiled(s, profiles, key, users, plainUsers);
      DistinctOutbounds(c.outbounds) && forall r :: r in c.rules ==> RuleDeclared(c, r)
  {
    CompiledInbounds(s, profiles, key, users, plainUsers);
    var c := Compiled(s, profiles, key, users, plainUsers);
    assert HasInbound(c, ApiIn);
    forall t | t in ProfileTags(profiles) ensures HasInbound(c, t) {
      var i :| 0 <= i < |profiles| && ProfileTags(profiles)[i] == t;
      assert c.inbounds[i + 1].tag == t;
    }
  }

  lemma AcceptedProxy(s: Spec)
    requires Accepted(s) && s.proxy
    ensures s.preset.Some? && s.relay.Some?
  {
    hide Blank, HasScheme, ValidVlessValue;
  }

  /** Every accepted spec compiles to inbounds with different tags and, exactly when the API port is
      not one of the profiles' ports, different ports; rules name only declared inbounds and outbounds. */
  lemma CompiledIsWellFormed(s: Spec, c: Config)
    requires Accepted(s) && IsCompiled(c, s)
    ensures DistinctTags(c.inbounds) && DistinctOutbounds(c.outbounds)
    ensures forall r :: r in c.rules ==> RuleDeclared(c, r)
    ensures DistinctPorts(c.inbounds) <==> PortFree(RenderedProfiles(s.profiles), ApiPort(s))
  {
    hide ValidSpec, RenderedProfiles, Compiled, IsClientList, TagName;
    var profiles := RenderedProfiles(s.profiles);
    var f := Filled(s, profiles);
    RenderedProfilesAreClean(s.profiles);
    if s.proxy {
      AcceptedProxy(s);
    }
    var key := if Reality in profiles then Base64.NormalKey(s.privateKey) else s.privateKey;
    var users, plainUsers :| c == Compiled(f, profiles, key, users, plainUsers);
    CompiledInbounds(f, profiles, key, users, plainUsers);
    CompiledPorts(f, profiles, key, users, plainUsers);
    CompiledRules(f, profiles, key, users, plainUsers);
  }

  /** Each profile inbound serves the enabled and service users, ordered by email; plain XHTTP serves
      them without a flow, and the REALITY key is in normal form. */
  lemma CompiledServesUsers(s: Spec, c: Config, i: nat)
    requires IsCompiled(c, s) && 0 < i < |c.inbounds|
    ensures var b := c.inbounds[i];
      && b.tag.Of? && IsClientList(b.clients, s.users, s.services, if b.tag == Of(PlainXhttp) then "" else VISION)
      && (b.stream.RealityStream? <==> b.tag == Of(Reality))
      && (b.stream.RealityStream? ==> b.stream.privateKey == Base64.NormalKey(s.privateKey))
  {
    hide RenderedProfiles, IsClientList, Filled;
    var profiles := RenderedProfiles(s.profiles);
    assert c.inbounds[i].tag == Of(profiles[i - 1]);
    assert profiles[i - 1] in profiles;
  }

  /** DNS servers are configured exactly under the minimal profile: the given ones, or two defaults, and
      none is blank or has a URI scheme. */
  lemma DnsExactlyWhenMinimal(s: Spec, c: Config)
    requires Accepted(s) && IsCompiled(c, s)
    ensures c.dns == if NormalizeSecurity(s.security) != MINIMAL then None
                     else if s.dns == [] then Some(DEFAULT_DNS) else Some(s.dns)
    ensures c.dns.Some? ==> c.dns.value != [] && forall d :: d in c.dns.value ==> GoodDns(d)
  {
    hide RenderedProfiles, IsClientList, GoodDns, GoodReality, GoodTls, GoodRelay, ValidVlessValue, NormalizeSecurity;
  }

  // ---------------------------------------------------------------------------------------------
  // Routing

  /** What routing can see of a connection. */
  datatype Connection = Connection(
    inbound: InTag, ipv6: bool, bittorrent: bool, tracker: bool, directDomain: bool, directIp: bool)

  predicate Matches(condition: Condition, k: Connection) {
    match condition
    case FromInbounds(tags) => k.inbound in tags
    case AnyIpv6 => k.ipv6
    case Bittorrent => k.bittorrent
    case PublicTrackers => k.tracker
    case DirectDomains(_) => k.directDomain
    case DirectIps(_) => k.directIp
  }

  function FirstMatch(rules: seq<Rule>, k: Connection): Option<OutTag> {
    if rules == [] then None
    else if Matches(rules[0].condition, k) then Some(rules[0].outbound)
    else FirstMatch(rules[1..], k)
  }

  /** The first matching rule decides; without one the first outbound is used. */
  function Route(c: Config, k: Connection): Option<OutTag> {
    var r := FirstMatch(c.rules, k);
    if r.Some? then r else if c.outbounds != [] then Some(c.outbounds[0]) else None
  }

  predicate Unwanted(k: Connection) {
    k.ipv6 || k.bittorrent || k.tracker
  }

  /** Where a connection is meant to go: unwanted traffic of users is blocked unless the security
      profile is off, and a proxy forwards what is not direct. */
  function Intended(s: Spec, k: Connection): OutTag {
    if k.inbound == ApiIn then ApiOut
    else if Lower(Trim(s.security)) != OFF && Unwanted(k) then Block
    else if s.proxy && !k.directDomain && !k.directIp then ForeignPool
    else Direct
  }

  lemma {:induction false} FirstMatchAppend(a: seq<Rule>, b: seq<Rule>, k: Connection)
    ensures FirstMatch(a + b, k) == if FirstMatch(a, k).Some? then FirstMatch(a, k) else FirstMatch(b, k)
  {
    if a == [] {
      assert a + b == b;
    } else {
      FirstMatchAppend(a[1..], b, k);
      assert (a + b)[1..] == a[1..] + b;
    }
  }

  lemma MinimalRulesMatch(s: Spec, k: Connection)
    ensures FirstMatch(MinimalRules(s), k) == if s.security == MINIMAL && Unwanted(k) then Some(Block) else None
  {
    var a, b, d := Rule(AnyIpv6, Block), Rule(Bittorrent, Block), Rule(PublicTrackers, Block);
    assert [a, b, d][1..] == [b, d] && [b, d][1..] == [d] && [d][1..] == [];
    assert FirstMatch([d], k) == if k.tracker then Some(Block) else None;
    assert FirstMatch([b, d], k) == if k.bittorrent then Some(Block) else FirstMatch([d], k);
  }

  lemma ProxyRulesMatch(s: Spec, profiles: seq<Profile>, k: Connection)
    requires s.proxy ==> s.preset.Some?
    requires k.inbound.Of? && k.inbound.profile in profiles
    ensures FirstMatch(ProxyRules(s, profiles), k) ==
      if !s.proxy then None else if k.directDomain || k.directIp then Some(Direct) else Some(ForeignPool)
  {
    if s.proxy {
      var tags := ProfileTags(profiles);
      var i :| 0 <= i < |profiles| && profiles[i] == k.inbound.profile;
      assert tags[i] == k.inbound;
      var a, b, d := Rule(DirectDomains(s.preset.value), Direct), Rule(DirectIps(s.preset.value), Direct),
                     Rule(FromInbounds(tags), ForeignPool);
      assert [a, b, d][1..] == [b, d] && [b, d][1..] == [d];
      assert FirstMatch([d], k) == Some(ForeignPool);
      assert FirstMatch([b, d], k) == if k.directIp then Some(Direct) else Some(ForeignPool);
    }
  }

  lemma ApiRuleMatches(k: Connection)
    ensures FirstMatch([Rule(FromInbounds([ApiIn]), ApiOut)], k) == if k.inbound == ApiIn then Some(ApiOut) else None
  {
    assert [Rule(FromInbounds([ApiIn]), ApiOut)][1..] == [];
  }

  /** What the rule list does: for every connection of every inbound of every accepted spec. */
  lemma RouteTaken(s: Spec, c: Config, k: Connection)
    requires Accepted(s) && IsCompiled(c, s) && HasInbound(c, k.inbound)
    ensures Route(c, k) == Some(
      if k.inbound == ApiIn then ApiOut
      else if NormalizeSecurity(s.security) == MINIMAL && Unwanted(k) then Block
      else if s.proxy && !k.directDomain && !k.directIp then ForeignPool
      else Direct)
    ensures s.proxy ==> FirstMatch(c.rules, k).Some?
  {
    hide Accepted, RenderedProfiles, IsClientList, MinimalRules, ProxyRules, FirstMatch, NormalizeSecurity;
    var profiles := RenderedProfiles(s.profiles);
    if s.proxy {
      AcceptedProxy(s);
    }
    var head := [Rule(FromInbounds([ApiIn]), ApiOut)];
    var f := Filled(s, profiles);
    assert c.rules == head + MinimalRules(f) + ProxyRules(f, profiles);
    FirstMatchAppend(head + MinimalRules(f), ProxyRules(f, profiles), k);
    FirstMatchAppend(head, MinimalRules(f), k);
    ApiRuleMatches(k);
    MinimalRulesMatch(f, k);
    if k.inbound != ApiIn {
      var i :| 0 <= i < |c.inbounds| && c.inbounds[i].tag == k.inbound;
      assert k.inbound == Of(profiles[i - 1]);
      ProxyRulesMatch(f, profiles, k);
    }
  }

  /** A connection goes where it is meant to exactly when the security profile has a supported name or
      there is nothing to block. On a proxy some rule always matches, so the default is never used. */
  lemma RoutingMeetsIntentExactlyWhen(s: Spec, c: Config, k: Connection)
    requires Accepted(s) && IsCompiled(c, s) && HasInbound(c, k.inbound)
    ensures Route(c, k) == Some(Intended(s, k)) <==>
            NormalizeSecurity(s.security) != "" || k.inbound == ApiIn || !Unwanted(k)
    ensures s.proxy ==> FirstMatch(c.rules, k).Some?
  {
    hide Accepted, IsCompiled, FirstMatch, Route, Trim, Lower;
    RouteTaken(s, c, k);
  }

  /** Unwanted traffic of users is blocked exactly when the name of the security profile means minimal. */
  lemma UnwantedIsBlockedExactlyWhen(s: Spec, c: Config, k: Connection)
    requires Accepted(s) && IsCompiled(c, s) && HasInbound(c, k.inbound) && k.inbound != ApiIn && Unwanted(k)
    ensures Route(c, k) == Some(Block) <==> Lower(Trim(s.security)) == "" || Lower(Trim(s.security)) == MINIMAL
  {
    hide Accepted, IsCompiled, FirstMatch, Route, Trim, Lower;
    RouteTaken(s, c, k);
  }

  const STRICT := Spec(false, None, "", "", "", "", true, [], "", "strict", ["9.9.9.9"], [], [Some(PlainXhttp)], 0,
                       TlsFiles("", "", ""), [], [], None)

  lemma StrictIsUnsupported()
    ensures NormalizeSecurity("strict") == "" && Lower(Trim("strict")) == "strict" && GoodDns("9.9.9.9")
  {
    assert Trim("strict") == "strict";
    assert Lower("strict") == "strict";
    assert Trim("9.9.9.9") == "9.9.9.9";
  }

  /** A spec with an unsupported name and its own DNS servers is accepted, and an IPv6 connection that
      would be blocked under the minimal profile is let through. */
  lemma UnsupportedNameLetsThrough() returns (c: Config, k: Connection)
    ensures Accepted(STRICT) && IsCompiled(c, STRICT) && HasInbound(c, k.inbound)
    ensures Unwanted(k) && Route(c, k) == Some(Direct) && Intended(STRICT, k) == Block
  {
    hide NormalizeSecurity, GoodDns, Trim, Lower, IsClientList;
    StrictIsUnsupported();
    assert [Some(PlainXhttp)][..0] == [];
    assert RenderedProfiles(STRICT.profiles) == [PlainXhttp];
    NobodyIsListed(VISION);
    NobodyIsListed("");
    c := Compiled(Filled(STRICT, [PlainXhttp]), [PlainXhttp], "", [], []);
    k := Connection(Of(PlainXhttp), true, false, false, false, false);
    assert c.inbounds[1].tag == k.inbound;
    RouteTaken(STRICT, c, k);
  }

  lemma NobodyIsListed(flow: string)
    ensures IsClientList([], [], [], flow)
  {
  }

  // ---------------------------------------------------------------------------------------------
  // Tags used at run time

  function Named(profiles: seq<Profile>): seq<Option<Profile>> {
    seq(|profiles|, i requires 0 <= i < |profiles| => Some(profiles[i]))
  }

  /** The tags users are added to and removed from at run time. */
  method RuntimeInboundTags(profiles: seq<Profile>) returns (tags: seq<InTag>)
    ensures tags == ProfileTags(RenderedProfiles(Named(profiles)))
  {
    var seen: set<InTag> := {};
    ghost var kept: seq<Profile> := [];
    tags := [];
    for i := 0 to |profiles|
      invariant kept == FirstSeen(Named(profiles)[..i]) && tags == ProfileTags(kept)
      invariant forall p :: Of(p) in seen <==> p in kept
    {
      assert Named(profiles)[..i + 1][..i] == Named(profiles)[..i];
      if Of(profiles[i]) in seen {
        continue;
      }
      seen, tags, kept := seen + {Of(profiles[i])}, tags + [Of(profiles[i])], kept + [profiles[i]];
    }
    assert Named(profiles)[..|profiles|] == Named(profiles);
    if |tags| == 0 {
      return [Of(Reality)];
    }
  }

  function Tags(l: seq<Inbound>): seq<InTag> {
    seq(|l|, i requires 0 <= i < |l| => l[i].tag)
  }

  /** The tags used at run time are the tags of the rendered profile inbounds, in the same order. */
  lemma RuntimeTagsAreRendered(profiles: seq<Profile>, s: Spec, c: Config)
    requires IsCompiled(c, s) && s.profiles == Named(profiles)
    ensures c.inbounds != [] && Tags(c.inbounds[1..]) == ProfileTags(RenderedProfiles(Named(profiles)))
  {
    hide IsClientList, RenderedProfiles;
  }

  /** For a stored list of profiles these are the tags of the listed profiles. */
  lemma StoredProfilesAreRendered(profiles: seq<Profile>)
    requires profiles != [] && NoRepeats(profiles)
    ensures RenderedProfiles(Named(profiles)) == profiles
  {
    CleanListIsKept(profiles, Named(profiles));
  }
}
