/** The fields of a user that must agree on all servers (internal/cli/global_users.go). */
module Identities {
  import opened Rows
  import opened Text
  import opened Sorting

  // ---------------------------------------------------------------------------------------------
  // Normalizing tags

  function NormalizeTags(raw: string): string {
    Join(Sort(ParseCSV(raw)), ',')
  }

  predicate Items(l: seq<string>) {
    forall i :: 0 <= i < |l| ==> Solid(l[i]) && ',' !in l[i]
  }

  lemma {:induction false} TrimKeepsOut(s: string, c: char)
    requires c !in s
    ensures c !in Trim(s)
  {
    TrimLeftKeepsOut(s, c);
    TrimRightKeepsOut(TrimLeft(s), c);
  }

  lemma {:induction false} TrimLeftKeepsOut(s: string, c: char)
    requires c !in s
    ensures c !in TrimLeft(s)
  {
    if s != "" && IsSpace(s[0]) {
      TrimLeftKeepsOut(s[1..], c);
    }
  }

  lemma {:induction false} TrimRightKeepsOut(s: string, c: char)
    requires c !in s
    ensures c !in TrimRight(s)
  {
    if s != "" && IsSpace(s[|s| - 1]) {
      TrimRightKeepsOut(s[..|s| - 1], c);
    }
  }

  lemma {:induction false} NonBlankItems(parts: seq<string>)
    requires forall i :: 0 <= i < |parts| ==> ',' !in parts[i]
    ensures Items(NonBlank(parts))
  {
    hide Trim;
    if parts != [] {
      NonBlankItems(parts[1..]);
      TrimIsSolid(parts[0]);
      TrimKeepsOut(parts[0], ',');
    }
  }

  lemma ParsedItems(raw: string)
    ensures Items(ParseCSV(raw))
  {
    SplitPiecesClean(raw, ',');
    NonBlankItems(Split(raw, ','));
  }

  lemma {:induction false} NonBlankOfItems(l: seq<string>)
    requires Items(l)
    ensures NonBlank(l) == l
  {
    hide Trim;
    if l != [] {
      NonBlankOfItems(l[1..]);
      TrimSolid(l[0]);
      assert l == [l[0]] + l[1..];
    }
  }

  /** Parsing undoes joining for a list of items. */
  lemma ParseJoin(l: seq<string>)
    requires Items(l)
    ensures ParseCSV(Join(l, ',')) == l
  {
    if l == [] {
      assert Split("", ',') == [""];
    } else {
      SplitJoin(l, ',');
      NonBlankOfItems(l);
    }
  }

  lemma SortItems(l: seq<string>)
    requires Items(l)
    ensures Items(Sort(l))
  {
    SortSorts(l);
    forall i | 0 <= i < |Sort(l)| ensures Solid(Sort(l)[i]) && ',' !in Sort(l)[i] {
      assert Sort(l)[i] in multiset(l);
    }
  }

  /** Normalized tags are read back sorted, and they stand for the tags whatever their order. */
  lemma NormalizedTagsParse(raw: string)
    ensures ParseCSV(NormalizeTags(raw)) == Sort(ParseCSV(raw))
  {
    ParsedItems(raw);
    SortItems(ParseCSV(raw));
    ParseJoin(Sort(ParseCSV(raw)));
  }

  lemma NormalizeTagsIdempotent(raw: string)
    ensures NormalizeTags(NormalizeTags(raw)) == NormalizeTags(raw)
  {
    hide ParseCSV;
    NormalizedTagsParse(raw);
    var l := ParseCSV(raw);
    SortSorts(l);
    SortSorts(Sort(l));
    SortedStringsAreUnique(Sort(l), Sort(Sort(l)));
  }

  lemma SameTagsExactlyWhen(a: string, b: string)
    ensures NormalizeTags(a) == NormalizeTags(b) <==> multiset(ParseCSV(a)) == multiset(ParseCSV(b))
  {
    hide ParseCSV;
    NormalizedTagsParse(a);
    NormalizedTagsParse(b);
    SortSorts(ParseCSV(a));
    SortSorts(ParseCSV(b));
    if multiset(ParseCSV(a)) == multiset(ParseCSV(b)) {
      SortedStringsAreUnique(Sort(ParseCSV(a)), Sort(ParseCSV(b)));
    }
  }

  // ---------------------------------------------------------------------------------------------
  // Identities

  /** `expiry` is in seconds, the resolution at which expiry dates are compared. */
  datatype Identity = Identity(
    uuid: string, email: string, enabled: bool, expiry: Option<int>, notes: string, tags: string)

  datatype IdentityField = Uuid | Email | EnabledFlag | ExpiryDate | Notes | Tags

  /** What comparisons see of an identity. */
  function Canon(u: Identity): Identity {
    Identity(Trim(u.uuid), Trim(u.email), u.enabled, u.expiry, Trim(u.notes), NormalizeTags(u.tags))
  }

  predicate DiffersIn(x: Identity, y: Identity, f: IdentityField) {
    match f
    case Uuid => x.uuid != y.uuid
    case Email => x.email != y.email
    case EnabledFlag => x.enabled != y.enabled
    case ExpiryDate => x.expiry != y.expiry
    case Notes => x.notes != y.notes
    case Tags => x.tags != y.tags
  }

  /** The differing fields of two normal forms. */
  function DiffFields(x: Identity, y: Identity): (diff: seq<IdentityField>)
    ensures diff == [] <==> x == y
    ensures forall f :: f in diff <==> DiffersIn(x, y, f)
  {
    (if x.uuid != y.uuid then [Uuid] else []) +
    (if x.email != y.email then [Email] else []) +
    (if x.enabled != y.enabled then [EnabledFlag] else []) +
    (if x.expiry != y.expiry then [ExpiryDate] else []) +
    (if x.notes != y.notes then [Notes] else []) +
    (if x.tags != y.tags then [Tags] else [])
  }

  function DiffGlobalIdentityFields(a: Identity, b: Identity): (diff: seq<IdentityField>)
    ensures diff == [] <==> Canon(a) == Canon(b)
    ensures forall f :: f in diff <==> DiffersIn(Canon(a), Canon(b), f)
  {
    DiffFields(Canon(a), Canon(b))
  }

  lemma CanonIdempotent(u: Identity)
    ensures Canon(Canon(u)) == Canon(u)
  {
    TrimIdempotent(u.uuid);
    TrimIdempotent(u.email);
    TrimIdempotent(u.notes);
    NormalizeTagsIdempotent(u.tags);
  }

  /** Copies the fields that differ; afterwards nothing differs, and nothing is copied needlessly. */
  method ApplyCanonicalIdentity(dst: Identity, src: Identity) returns (out: Identity, changed: bool)
    ensures Canon(out) == Canon(src)
    ensures changed <==> Canon(dst) != Canon(src)
    ensures out == Applied(dst, src)
  {
    hide Trim, NormalizeTags;
    CanonIdempotent(src);
    out, changed := dst, false;
    if Trim(out.uuid) != Trim(src.uuid) {
      out, changed := out.(uuid := Trim(src.uuid)), true;
    }
    if Trim(out.email) != Trim(src.email) {
      out, changed := out.(email := Trim(src.email)), true;
    }
    if out.enabled != src.enabled {
      out, changed := out.(enabled := src.enabled), true;
    }
    if out.expiry != src.expiry {
      out, changed := out.(expiry := src.expiry), true;
    }
    if Trim(out.notes) != Trim(src.notes) {
      out, changed := out.(notes := Trim(src.notes)), true;
    }
    if NormalizeTags(out.tags) != NormalizeTags(src.tags) {
      out, changed := out.(tags := NormalizeTags(src.tags)), true;
    }
  }

  function Applied(dst: Identity, src: Identity): Identity {
    Identity(if Trim(dst.uuid) == Trim(src.uuid) then dst.uuid else Trim(src.uuid),
             if Trim(dst.email) == Trim(src.email) then dst.email else Trim(src.email),
             src.enabled, src.expiry,
             if Trim(dst.notes) == Trim(src.notes) then dst.notes else Trim(src.notes),
             if NormalizeTags(dst.tags) == NormalizeTags(src.tags) then dst.tags else NormalizeTags(src.tags))
  }

  // ---------------------------------------------------------------------------------------------
  // Resolving canonical users

  datatype User = User(
    identity: Identity, limit: Option<int>, quotaEnabled: bool, quotaBlocked: bool, blockedAt: Option<int>)

  datatype Entry = Entry(username: string, user: User)

  function Key(e: Entry): string {
    Trim(e.username)
  }

  function Later(earlier: Option<Entry>, e: Entry, key: string): Option<Entry> {
    if earlier.Some? then earlier else if Key(e) == key then Some(e) else None
  }

  /** The first entry of a user. */
  function First(l: seq<Entry>, key: string): Option<Entry> {
    if l == [] then None else Later(First(l[..|l| - 1], key), l[|l| - 1], key)
  }

  function Keys(l: seq<Entry>): set<string> {
    set e | e in l && Key(e) != "" :: Key(e)
  }

  function Canonical(l: seq<Entry>): map<string, Entry> {
    map k | k in Keys(l) && First(l, k).Some? :: First(l, k).value
  }

  predicate SameUser(a: Entry, b: Entry) {
    Key(a) == Key(b) != ""
  }

  /** Any two entries of one user have the same identity. */
  predicate Consistent(l: seq<Entry>) {
    forall i, j :: 0 <= i < |l| && 0 <= j < |l| && SameUser(l[i], l[j]) ==>
      Canon(l[i].user.identity) == Canon(l[j].user.identity)
  }

  lemma {:induction false} FirstFinds(l: seq<Entry>, key: string)
    ensures First(l, key).Some? <==> exists i :: 0 <= i < |l| && Key(l[i]) == key
    ensures First(l, key).Some? ==> exists i :: 0 <= i < |l| && Key(l[i]) == key && First(l, key).value == l[i]
  {
    hide Trim;
    if l != [] {
      FirstFinds(l[..|l| - 1], key);
      if First(l[..|l| - 1], key).Some? {
        var i :| 0 <= i < |l| - 1 && Key(l[..|l| - 1][i]) == key && First(l, key).value == l[..|l| - 1][i];
        assert Key(l[i]) == key && First(l, key).value == l[i];
      }
    }
  }

  /** Comparing each entry only with the first one of its user reports a conflict exactly when some
      two entries of a user differ. */
  method CanonicalUsersFromServers(l: seq<Entry>) returns (ok: bool, canonical: map<string, Entry>)
    ensures ok <==> Consistent(l)
    ensures canonical == Canonical(l)
  {
    hide Trim, Canon, First, Keys, DiffGlobalIdentityFields;
    canonical := map[];
    KeysOfNone();
    var conflicts: seq<(string, IdentityField)> := [];
    for i := 0 to |l|
      invariant canonical.Keys == Keys(l[..i])
      invariant forall k :: k in canonical ==> First(l[..i], k) == Some(canonical[k])
      invariant conflicts == [] <==> AllAgree(l, i)
    {
      var key := Key(l[i]);
      StepFirst(l, i);
      FirstIsKnown(l[..i], key);
      if key == "" {
        continue;
      }
      if key !in canonical {
        canonical := canonical[key := l[i]];
        continue;
      }
      var diff := DiffGlobalIdentityFields(canonical[key].user.identity, l[i].user.identity);
      if diff != [] {
        conflicts := conflicts + [(key, diff[0])];
      }
    }
    assert l[..|l|] == l;
    ok := conflicts == [];
    FirstDecides(l);
  }

  lemma KeysOfNone()
    ensures Keys([]) == {}
  {
  }

  lemma FirstIsKnown(l: seq<Entry>, key: string)
    ensures key != "" ==> (First(l, key).Some? <==> key in Keys(l))
  {
    hide Trim;
    FirstFinds(l, key);
    if First(l, key).Some? {
      var i :| 0 <= i < |l| && Key(l[i]) == key;
      assert l[i] in l;
    }
  }

  /** The first i entries agree with the first entry of their user. */
  predicate AllAgree(l: seq<Entry>, i: nat)
    requires i <= |l|
  {
    forall j :: 0 <= j < i && Key(l[j]) != "" ==> AgreesWithFirst(l[..i], l[j])
  }

  predicate AgreesWithFirst(l: seq<Entry>, e: Entry) {
    First(l, Key(e)).Some? && Canon(First(l, Key(e)).value.user.identity) == Canon(e.user.identity)
  }

  lemma StepFirst(l: seq<Entry>, i: nat)
    requires i < |l|
    ensures Keys(l[..i + 1]) == Keys(l[..i]) + if Key(l[i]) == "" then {} else {Key(l[i])}
    ensures forall k :: First(l[..i + 1], k) == Later(First(l[..i], k), l[i], k)
    ensures AllAgree(l, i + 1) <==> AllAgree(l, i) && (Key(l[i]) != "" ==> AgreesWithFirst(l[..i + 1], l[i]))
  {
    hide Trim, Canon;
    assert l[..i + 1][..i] == l[..i] && l[..i + 1] == l[..i] + [l[i]];
    forall j | 0 <= j < i ensures AgreesWithFirst(l[..i], l[j]) == AgreesWithFirst(l[..i + 1], l[j]) {
      FirstFinds(l[..i], Key(l[j]));
      assert l[..i][j] == l[j];
    }
  }

  lemma FirstDecides(l: seq<Entry>)
    ensures Consistent(l) <==> AllAgree(l, |l|)
  {
    hide Trim, Canon;
    assert l[..|l|] == l;
    forall j | 0 <= j < |l| ensures First(l, Key(l[j])).Some? {
      FirstFinds(l, Key(l[j]));
    }
    if Consistent(l) {
      forall j | 0 <= j < |l| && Key(l[j]) != "" ensures AgreesWithFirst(l, l[j]) {
        FirstFinds(l, Key(l[j]));
        var i :| 0 <= i < |l| && Key(l[i]) == Key(l[j]) && First(l, Key(l[j])).value == l[i];
        assert SameUser(l[i], l[j]);
      }
    }
    if AllAgree(l, |l|) {
      forall i, j | 0 <= i < |l| && 0 <= j < |l| && SameUser(l[i], l[j])
        ensures Canon(l[i].user.identity) == Canon(l[j].user.identity)
      {
        assert AgreesWithFirst(l, l[i]) && AgreesWithFirst(l, l[j]);
      }
    }
  }
}
