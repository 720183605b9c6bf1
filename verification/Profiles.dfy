/** Transport profiles and their stored comma-separated form (internal/model/transport_profile.go). */
module Profiles {
  import opened Rows
  import opened Text

  datatype Profile = Reality | PlainXhttp | SelfSniWeb | VlessEnc

  /** The registry's display order. */
  const KNOWN_ORDER := [Reality, PlainXhttp, SelfSniWeb, VlessEnc]

  function Name(p: Profile): string {
    match p
    case Reality => "vless-reality-tcp-vision"
    case PlainXhttp => "vless-xhttp-plain"
    case SelfSniWeb => "vless-tcp-tls-selfsni-web"
    case VlessEnc => "vless-xhttp-vlessenc"
  }

  function Port(p: Profile): int {
    match p
    case Reality => 443
    case PlainXhttp => 13179
    case SelfSniWeb => 443
    case VlessEnc => 13180
  }

  function InboundTag(p: Profile): string {
    match p
    case Reality => "vless-reality"
    case PlainXhttp => "vless-xhttp-plain"
    case SelfSniWeb => "vless-tcp-tls-selfsni-web"
    case VlessEnc => "vless-xhttp-vlessenc"
  }

  /** The profile a cleaned-up name stands for; an empty name is the default profile. */
  function ProfileOf(name: string): Option<Profile> {
    if name in {"", "default", "tcp", "reality", "vision", "vless-reality", "vless-reality-tcp-vision"}
      then Some(Reality)
    else if name in {"plain-xhttp", "xhttp-plain", "emergency-xhttp", "vless-xhttp-plain"} then Some(PlainXhttp)
    else if name in {"tls", "selfsni", "self-sni", "tls-selfsni", "tls-selfsni-web", "vless-tls",
      "vless-tcp-tls-selfsni-web"}
    then Some(SelfSniWeb)
    else if name in {"vlessenc", "vless-enc", "xhttp-vlessenc", "vlessenc-xhttp", "vless-xhttp-vlessenc"}
      then Some(VlessEnc)
    else None
  }

  function NormalizeProfile(raw: string): Option<Profile> {
    ProfileOf(Lower(Trim(raw)))
  }

  lemma NameIsClean(p: Profile)
    ensures Solid(Name(p)) && Lower(Name(p)) == Name(p) && ',' !in Name(p)
  {
    var n := Name(p);
    assert forall i :: 0 <= i < |n| ==> LowerChar(n[i]) == n[i];
  }

  lemma NameIsItsOwnProfile(p: Profile)
    ensures NormalizeProfile(Name(p)) == Some(p)
  {
    NameIsClean(p);
    TrimSolid(Name(p));
    assert ProfileOf(Name(p)) == Some(p) by {
      match p
      case Reality =>
      case PlainXhttp =>
      case SelfSniWeb =>
      case VlessEnc =>
    }
  }

  // ---------------------------------------------------------------------------------------------
  // Lists of profiles

  function If(c: bool, p: Profile): seq<Profile> {
    if c then [p] else []
  }

  /** The members of a set in display order: what every normalized list is. */
  function InOrder(s: set<Profile>): seq<Profile> {
    If(Reality in s, Reality) + If(PlainXhttp in s, PlainXhttp) + If(SelfSniWeb in s, SelfSniWeb) +
      If(VlessEnc in s, VlessEnc)
  }

  function SetOf(l: seq<Profile>): set<Profile> {
    set p | p in l
  }

  lemma InOrderMembers(s: set<Profile>, p: Profile)
    ensures p in InOrder(s) <==> p in s
  {
  }

  lemma InOrderHasSameMembers(s: set<Profile>)
    ensures SetOf(InOrder(s)) == s
  {
    forall p ensures p in SetOf(InOrder(s)) <==> p in s {
      InOrderMembers(s, p);
    }
  }

  /** A listed set names each member once. */
  lemma InOrderHasNoDuplicates(s: set<Profile>)
    ensures forall i, j :: 0 <= i < j < |InOrder(s)| ==> InOrder(s)[i] != InOrder(s)[j]
  {
    var a, b, c, d := If(Reality in s, Reality), If(PlainXhttp in s, PlainXhttp), If(SelfSniWeb in s, SelfSniWeb),
                      If(VlessEnc in s, VlessEnc);
    Apart(a, b);
    Apart(a + b, c);
    Apart(a + b + c, d);
  }

  lemma Apart(a: seq<Profile>, b: seq<Profile>)
    requires forall i, j :: 0 <= i < j < |a| ==> a[i] != a[j]
    requires b == [] || (|b| == 1 && b[0] !in a)
    ensures forall i, j :: 0 <= i < j < |a + b| ==> (a + b)[i] != (a + b)[j]
  {
  }

  /** The names the registry knows among some parsed tokens; historical ones are ignored. */
  function Known(names: seq<Option<Profile>>): set<Profile> {
    set p | Some(p) in names
  }

  function Resolve(tokens: seq<string>): seq<Option<Profile>> {
    seq(|tokens|, i requires 0 <= i < |tokens| => NormalizeProfile(tokens[i]))
  }

  /** The primary and the tokens of the stored list. */
  function Candidates(primary: string, raw: string): seq<string> {
    [primary] + if Blank(raw) then [] else Split(raw, ',')
  }

  function OrDefault(s: set<Profile>): set<Profile> {
    if s == {} then {Reality} else s
  }

  function EnabledProfiles(primary: string, raw: string): seq<Profile> {
    InOrder(OrDefault(Known(Resolve(Candidates(primary, raw)))))
  }

  method SortProfilesByKnownOrder(l: seq<Profile>) returns (out: seq<Profile>)
    ensures out == InOrder(SetOf(l))
  {
    var seen: set<Profile> := {};
    for i := 0 to |l|
      invariant seen == SetOf(l[..i])
    {
      assert l[..i + 1] == l[..i] + [l[i]];
      seen := seen + {l[i]};
    }
    assert l[..|l|] == l;
    out := [];
    for i := 0 to |KNOWN_ORDER|
      invariant out == InOrder(seen * Leading(i))
    {
      if KNOWN_ORDER[i] in seen {
        out := out + [KNOWN_ORDER[i]];
      }
      ListedNext(seen, i);
    }
    LeadingAll(seen);
  }

  lemma LeadingAll(s: set<Profile>)
    ensures s * Leading(4) == s
  {
    forall p ensures p in Leading(4) {
      match p
      case Reality =>
      case PlainXhttp =>
      case SelfSniWeb =>
      case VlessEnc =>
    }
  }

  /** The first i profiles of the display order. */
  ghost function Leading(i: nat): set<Profile>
    requires i <= 4
  {
    (if i > 0 then {Reality} else {}) + (if i > 1 then {PlainXhttp} else {}) +
    (if i > 2 then {SelfSniWeb} else {}) + (if i > 3 then {VlessEnc} else {})
  }

  lemma ListedNext(s: set<Profile>, i: nat)
    requires i < 4
    ensures InOrder(s * Leading(i + 1)) == InOrder(s * Leading(i)) + If(KNOWN_ORDER[i] in s, KNOWN_ORDER[i])
  {
  }

  /** Unique enabled profiles in display order. */
  method NormalizeEnabledProfiles(names: seq<Option<Profile>>) returns (out: seq<Profile>)
    ensures out == InOrder(OrDefault(Known(names)))
  {
    var seen: set<Profile> := {};
    var found: seq<Profile> := [];
    for i := 0 to |names|
      invariant seen == SetOf(found) == Known(names[..i])
    {
      assert names[..i + 1] == names[..i] + [names[i]];
      if names[i].Some? && names[i].value !in seen {
        seen, found := seen + {names[i].value}, found + [names[i].value];
      }
    }
    assert names[..|names|] == names;
    if |found| == 0 {
      assert SetOf(found) == {};
      found := [Reality];
      assert SetOf(found) == {Reality};
    } else {
      assert found[0] in SetOf(found);
    }
    out := SortProfilesByKnownOrder(found);
  }

  // ---------------------------------------------------------------------------------------------
  // The stored form

  function Names(l: seq<Profile>): seq<string> {
    seq(|l|, i requires 0 <= i < |l| => Name(l[i]))
  }

  function Csv(l: seq<Profile>): string {
    Join(Names(l), ',')
  }

  lemma KnownNames(l: seq<Profile>)
    ensures Known(Resolve(Names(l))) == SetOf(l)
  {
    forall i | 0 <= i < |l| ensures Resolve(Names(l))[i] == Some(l[i]) {
      NameIsItsOwnProfile(l[i]);
    }
    KnownListed(l, Resolve(Names(l)));
  }

  lemma KnownListed(l: seq<Profile>, names: seq<Option<Profile>>)
    requires |names| == |l| && forall i :: 0 <= i < |l| ==> names[i] == Some(l[i])
    ensures Known(names) == SetOf(l)
  {
    forall p ensures p in Known(names) <==> p in SetOf(l) {
      if p in l {
        var i :| 0 <= i < |l| && l[i] == p;
        assert names[i] == Some(p);
      }
    }
  }

  lemma KnownAppend(a: seq<string>, b: seq<string>)
    ensures Known(Resolve(a + b)) == Known(Resolve(a)) + Known(Resolve(b))
  {
    assert Resolve(a + b) == Resolve(a) + Resolve(b);
    KnownConcat(Resolve(a), Resolve(b));
  }

  lemma KnownConcat(a: seq<Option<Profile>>, b: seq<Option<Profile>>)
    ensures Known(a + b) == Known(a) + Known(b)
  {
  }

  lemma CsvSplits(l: seq<Profile>)
    requires l != []
    ensures Split(Csv(l), ',') == Names(l)
    ensures !Blank(Csv(l))
  {
    forall i | 0 <= i < |l| ensures ',' !in Names(l)[i] {
      NameIsClean(l[i]);
    }
    SplitJoin(Names(l), ',');
    NameIsClean(l[0]);
    assert Names(l)[0] == Name(l[0]) && Csv(l)[0] == Name(l[0])[0];
    TrimRightKeepsFirst(Csv(l));
  }

  /** Whatever list of profiles a command joins and stores, reading it back gives those profiles and
      the primary, each once, in display order. */
  lemma CsvRoundTrip(primary: Profile, l: seq<Profile>)
    ensures EnabledProfiles(Name(primary), Csv(l)) == InOrder({primary} + SetOf(l))
  {
    KnownNames([primary]);
    assert Names([primary]) == [Name(primary)];
    assert SetOf([primary]) == {primary};
    KnownNames(l);
    KnownAppend([Name(primary)], Names(l));
    if l == [] {
      assert Blank(Csv(l));
      assert Candidates(Name(primary), Csv(l)) == [Name(primary)] + Names(l);
    } else {
      CsvSplits(l);
    }
    assert primary in {primary} + SetOf(l);
  }

  /** Normalizing a stored list again changes nothing, and the primary is always in it. */
  lemma NormalizationIsFixedPoint(primary: Profile, raw: string)
    ensures var l := EnabledProfiles(Name(primary), raw);
      primary in l && EnabledProfiles(Name(primary), Csv(l)) == l
  {
    hide NormalizeProfile, InOrder, Trim, Split, Csv;
    var s := Known(Resolve(Candidates(Name(primary), raw)));
    KnownAppend([Name(primary)], if Blank(raw) then [] else Split(raw, ','));
    KnownNames([primary]);
    assert Names([primary]) == [Name(primary)];
    assert primary in s;
    CsvRoundTrip(primary, InOrder(s));
    InOrderHasSameMembers(s);
    InOrderMembers(s, primary);
    assert {primary} + s == s;
  }

  /** A blank token anywhere in a stored list stands for the default profile, whatever the primary
      and the other tokens are. */
  lemma EmptyTokenMeansDefault(primary: string, raw: string, i: nat)
    requires !Blank(raw) && i < |Split(raw, ',')| && Blank(Split(raw, ',')[i])
    ensures Reality in EnabledProfiles(primary, raw)
  {
    var tokens, names := Candidates(primary, raw), Resolve(Candidates(primary, raw));
    assert tokens[i + 1] == Split(raw, ',')[i];
    assert Lower(Trim(tokens[i + 1])) == "";
    assert names[i + 1] == Some(Reality);
    InOrderMembers(OrDefault(Known(names)), Reality);
  }

  /** So a comma after a single name adds REALITY to it and the primary. */
  lemma TrailingCommaAddsReality(primary: Profile, p: Profile)
    ensures EnabledProfiles(Name(primary), Name(p) + ",") == InOrder({primary, p, Reality})
  {
    TrailingCommaCandidates(Name(primary), p);
    KnownNames([primary, p]);
    assert Names([primary, p]) == [Name(primary), Name(p)];
    KnownAppend([Name(primary), Name(p)], [""]);
    EmptyNameIsDefault();
    assert [Name(primary), Name(p)] + [""] == [Name(primary), Name(p), ""];
    ThreeKnown(primary, p);
  }

  lemma ThreeKnown(a: Profile, b: Profile)
    ensures OrDefault(SetOf([a, b]) + {Reality}) == {a, b, Reality}
  {
    assert Reality in SetOf([a, b]) + {Reality};
  }

  lemma TrailingCommaCandidates(primary: string, p: Profile)
    ensures Candidates(primary, Name(p) + ",") == [primary, Name(p), ""]
  {
    var name, raw := Name(p), Name(p) + ",";
    NameIsClean(p);
    assert raw == name + [','] + "";
    SplitAtSep(name, "", ',');
    assert raw[0] == name[0];
    TrimRightKeepsFirst(raw);
  }

  lemma EmptyNameIsDefault()
    ensures Known(Resolve([""])) == {Reality}
  {
    assert Lower(Trim("")) == "";
    assert NormalizeProfile("") == Some(Reality);
    assert Resolve([""]) == [Some(Reality)];
    assert Some(Reality) in [Some(Reality)];
  }

  // ---------------------------------------------------------------------------------------------
  // The two profiles that both need 443/tcp

  predicate Exclusive443(p: Profile) {
    p == Reality || p == SelfSniWeb
  }

  method ProfileConflictsOn443(enabled: seq<Profile>, profile: Profile) returns (conflict: bool)
    ensures conflict <==> exists p :: p in enabled && p != profile && Port(p) == Port(profile)
  {
    for i := 0 to |enabled|
      invariant forall j :: 0 <= j < i ==> enabled[j] == profile || Port(enabled[j]) != Port(profile)
    {
      if Exclusive443(enabled[i]) && Exclusive443(profile) && enabled[i] != profile {
        assert enabled[i] in enabled;
        return true;
      }
    }
    return false;
  }

  /** The enabled profiles a switch to another primary keeps. */
  function Compatible(enabled: seq<Profile>, profile: Profile): seq<Profile> {
    if enabled == [] then []
    else
      var last := enabled[|enabled| - 1];
      Compatible(enabled[..|enabled| - 1], profile) +
      if last != profile && Port(last) == Port(profile) then [] else [last]
  }

  method RemoveConflicting443Profiles(enabled: seq<Profile>, profile: Profile) returns (out: seq<Profile>)
    ensures out == Compatible(enabled, profile)
  {
    out := [];
    for i := 0 to |enabled|
      invariant out == Compatible(enabled[..i], profile)
    {
      assert enabled[..i + 1][..i] == enabled[..i];
      if Exclusive443(enabled[i]) && Exclusive443(profile) && enabled[i] != profile {
        continue;
      }
      out := out + [enabled[i]];
    }
    assert enabled[..|enabled|] == enabled;
  }

  lemma {:induction false} CompatibleMembers(enabled: seq<Profile>, profile: Profile, p: Profile)
    ensures p in Compatible(enabled, profile) <==> p in enabled && (p == profile || Port(p) != Port(profile))
  {
    if enabled != [] {
      CompatibleMembers(enabled[..|enabled| - 1], profile, p);
      assert enabled == enabled[..|enabled| - 1] + [enabled[|enabled| - 1]];
    }
  }

  /** No two enabled profiles need the same port. */
  predicate PortsDistinct(s: set<Profile>) {
    forall p, q :: p in s && q in s && p != q ==> Port(p) != Port(q)
  }

  // ---------------------------------------------------------------------------------------------
  // VLESS Encryption values

  const CLIENT_PREFIX := "mlkem768x25519plus.native.0rtt."
  const SERVER_PREFIX := "mlkem768x25519plus.native.600s."

  predicate ValidVlessValue(value: string, prefix: string) {
    var v := Trim(value);
    prefix <= v && !Blank(v[|prefix|..]) && forall c :: c in v ==> c !in {' ', '\t', '\r', '\n'}
  }
}
