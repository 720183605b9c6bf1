/** Repairing one server's users from another's (internal/cli/user_cmd_reconcile.go). */
module Reconcile {
  import opened Rows
  import opened Text
  import opened Sorting
  import opened Identities
  import opened Users

  function Limit(u: User): int {
    if u.limit.Some? then u.limit.value else 0
  }

  predicate Equivalent(a: User, b: User) {
    && a.identity.uuid == b.identity.uuid && a.identity.email == b.identity.email &&
      a.identity.enabled == b.identity.enabled
    && a.identity.expiry == b.identity.expiry && a.blockedAt == b.blockedAt
    && a.quotaEnabled == b.quotaEnabled && a.quotaBlocked == b.quotaBlocked
    && Trim(a.identity.notes) == Trim(b.identity.notes)
    && NormalizeTags(a.identity.tags) == NormalizeTags(b.identity.tags)
    && Limit(a) == Limit(b)
  }

  datatype Field = UuidField | EmailField | EnabledField | ExpiryField | BlockedAtField | QuotaEnabledField |
                   QuotaBlockedField | NotesField | TagsField | LimitField

  /** The reported differences of two rows of one user; there are none exactly when the rows are
      equivalent, so every planned update names a reason. */
  function DiffReconcileFields(src: User, dst: User): (diff: seq<Field>)
    ensures diff == [] <==> Equivalent(src, dst)
  {
    (if src.identity.uuid != dst.identity.uuid then [UuidField] else []) +
    (if src.identity.email != dst.identity.email then [EmailField] else []) +
    (if src.identity.enabled != dst.identity.enabled then [EnabledField] else []) +
    (if src.identity.expiry != dst.identity.expiry then [ExpiryField] else []) +
    (if src.blockedAt != dst.blockedAt then [BlockedAtField] else []) +
    (if src.quotaEnabled != dst.quotaEnabled then [QuotaEnabledField] else []) +
    (if src.quotaBlocked != dst.quotaBlocked then [QuotaBlockedField] else []) +
    (if Trim(src.identity.notes) != Trim(dst.identity.notes) then [NotesField] else []) +
    (if NormalizeTags(src.identity.tags) != NormalizeTags(dst.identity.tags) then [TagsField] else []) +
    (if Limit(src) != Limit(dst) then [LimitField] else [])
  }

  datatype Action = Add(name: string) | Update(name: string, details: seq<Field>) | Delete(name: string)

  predicate Planned(src: Table, dst: Table, a: Action) {
    match a
    case Add(n) => n in src && n !in dst
    case Update(n, details) => n in src && n in dst && !Equivalent(src[n], dst[n]) &&
      details == DiffReconcileFields(src[n], dst[n])
    case Delete(n) => n in dst && n !in src
  }

  /** The actions planned for one target. */
  method Plan(src: Table, dst: Table) returns (actions: seq<Action>)
    ensures forall a :: a in actions <==> Planned(src, dst, a)
    ensures NoRepeats(actions)
  {
    hide Equivalent, DiffReconcileFields;
    actions := [];
    var todo := src.Keys;
    while todo != {}
      invariant todo <= src.Keys
      invariant forall a :: a in actions <==> Planned(src, dst, a) && !a.Delete? && a.name !in todo
      invariant NoRepeats(actions)
      decreases |todo|
    {
      var n :| n in todo;
      todo := todo - {n};
      if n !in dst {
        actions := actions + [Add(n)];
      } else if !Equivalent(src[n], dst[n]) {
        actions := actions + [Update(n, DiffReconcileFields(src[n], dst[n]))];
      }
    }
    todo := dst.Keys;
    while todo != {}
      invariant todo <= dst.Keys
      invariant forall a :: a in actions <==> Planned(src, dst, a) && (a.Delete? ==> a.name !in todo)
      invariant NoRepeats(actions)
      decreases |todo|
    {
      var n :| n in todo;
      todo := todo - {n};
      if n !in src {
        actions := actions + [Delete(n)];
      }
    }
  }

  /** The row a user has after an apply that succeeds. Inserting forces quotas on, updating does not. */
  function Repaired(src: Table, dst: Table, n: string): User
    requires n in src
  {
    if n !in dst then src[n].(quotaEnabled := true)
    else if Equivalent(src[n], dst[n]) then dst[n]
    else src[n]
  }

  function Reconciled(src: Table, dst: Table): Table {
    map n | n in src :: Repaired(src, dst, n)
  }

  /** No row to write can meet the email of a different user. */
  ghost predicate Collisionless(src: Table, dst: Table) {
    && (forall n :: n in src ==> TagsStorable(src[n].identity.tags))
    && (forall n, m :: n in src && m in dst && n != m ==> src[n].identity.email != dst[m].identity.email)
    && (forall n, m :: n in src && m in src && n != m ==> src[n].identity.email != src[m].identity.email)
  }

  /** Between the loops' steps: users still to do keep their row on the target. */
  ghost predicate HalfWay(src: Table, dst: Table, todo: set<string>, out: Table) {
    && (forall n :: n in src && n !in todo ==> n in out && out[n] == Repaired(src, dst, n))
    && (forall n :: n in todo ==> (n in out <==> n in dst))
    && (forall n :: n in dst && (n in todo || n !in src) ==> n in out && out[n] == dst[n])
    && (forall n :: n in out ==> n in src || n in dst)
  }

  lemma NoCollision(src: Table, dst: Table, todo: set<string>, out: Table, n: string)
    requires Collisionless(src, dst) && HalfWay(src, dst, todo, out) && n in todo && todo <= src.Keys
    ensures !EmailTaken(out, n, src[n].identity.email)
  {
    hide TagsStorable;
    forall m | m in out && m != n ensures out[m].identity.email != src[n].identity.email {
      if m in src && m !in todo {
        assert out[m].identity.email == src[m].identity.email;
      }
    }
  }

  lemma RowWritten(src: Table, dst: Table, todo: set<string>, out: Table, n: string)
    requires HalfWay(src, dst, todo, out) && n in todo && todo <= src.Keys
    ensures HalfWay(src, dst, todo - {n}, out[n := Repaired(src, dst, n)])
  {
    hide Equivalent;
  }

  /** Writes one user of the source to the target. */
  method ApplyUser(src: Table, dst: Table, out: Table, n: string) returns (out': Table, ok: bool)
    requires n in src && (n in out <==> n in dst) && (n in dst ==> out[n] == dst[n])
    ensures ok ==> out' == out[n := Repaired(src, dst, n)]
    ensures out' == out || out' == out[n := Repaired(src, dst, n)]
    ensures !EmailTaken(out, n, src[n].identity.email) && TagsStorable(src[n].identity.tags) ==> ok
  {
    hide Equivalent, TagsStorable, EmailTaken;
    if n !in dst {
      var added := StoreAdd(out, n, src[n]);
      return added.0, added.1;
    }
    if Equivalent(src[n], dst[n]) {
      assert out == out[n := dst[n]];
      return out, true;
    }
    var updated := StoreUpdate(out, n, src[n]);
    return updated.0, updated.1;
  }

  /** What an apply that fails leaves behind: users may be added or updated, none are deleted, and
      every row is the target's own or the repaired one. */
  ghost predicate PartlyApplied(src: Table, dst: Table, out: Table) {
    && (forall n :: n in dst ==> n in out)
    && (forall n :: n in out ==> (n in dst && out[n] == dst[n]) || (n in src && out[n] == Repaired(src, dst, n)))
  }

  /** Applies the plan to one target's rows. */
  method Apply(src: Table, dst: Table) returns (out: Table, ok: bool)
    ensures ok ==> out == Reconciled(src, dst)
    ensures !ok ==> PartlyApplied(src, dst, out)
    ensures Collisionless(src, dst) ==> ok
  {
    hide Equivalent, TagsStorable, EmailTaken, Collisionless, Repaired, PartlyApplied;
    out := dst;
    var todo := src.Keys;
    while todo != {}
      invariant todo <= src.Keys && HalfWay(src, dst, todo, out)
      decreases |todo|
    {
      var n :| n in todo;
      if Collisionless(src, dst) {
        NoCollision(src, dst, todo, out, n);
        CollisionlessTags(src, dst, n);
      }
      RowWritten(src, dst, todo, out, n);
      HalfWayIsPartly(src, dst, todo, out);
      HalfWayIsPartly(src, dst, todo - {n}, out[n := Repaired(src, dst, n)]);
      out, ok := ApplyUser(src, dst, out, n);
      if !ok {
        return;
      }
      todo := todo - {n};
    }
    todo := dst.Keys;
    while todo != {}
      invariant todo <= dst.Keys
      invariant forall n :: n in src ==> n in out && out[n] == Repaired(src, dst, n)
      invariant forall n :: n in out ==> n in src || n in todo
      decreases |todo|
    {
      var n :| n in todo;
      todo := todo - {n};
      if n !in src {
        out := out - {n};
      }
    }
    assert out == Reconciled(src, dst);
    ok := true;
  }

  lemma HalfWayIsPartly(src: Table, dst: Table, todo: set<string>, out: Table)
    requires HalfWay(src, dst, todo, out)
    ensures PartlyApplied(src, dst, out)
  {
    hide Repaired;
  }

  lemma CollisionlessTags(src: Table, dst: Table, n: string)
    requires Collisionless(src, dst) && n in src
    ensures TagsStorable(src[n].identity.tags)
  {
  }

  // ---------------------------------------------------------------------------------------------
  // Convergence

  ghost predicate NothingToDo(src: Table, dst: Table) {
    forall a :: !Planned(src, dst, a)
  }

  lemma NothingToDoExactlyWhen(src: Table, dst: Table)
    ensures NothingToDo(src, dst) <==> src.Keys == dst.Keys && forall n :: n in src && n in dst ==>
      Equivalent(src[n], dst[n])
  {
    hide Equivalent, DiffReconcileFields;
    if NothingToDo(src, dst) {
      forall n | n in src ensures n in dst && Equivalent(src[n], dst[n]) {
        assert !Planned(src, dst, Add(n));
        if n in dst {
          assert !Planned(src, dst, Update(n, DiffReconcileFields(src[n], dst[n])));
        }
      }
      forall n | n in dst ensures n in src {
        assert !Planned(src, dst, Delete(n));
      }
    }
  }

  /** One apply leaves the source's usernames, and a further plan is empty exactly when every user it
      had to insert has quotas enabled on the source. */
  lemma ApplyConvergesExactlyWhen(src: Table, dst: Table)
    ensures Reconciled(src, dst).Keys == src.Keys
    ensures NothingToDo(src, Reconciled(src, dst)) <==> forall n :: n in src && n !in dst ==> src[n].quotaEnabled
  {
    hide Trim, NormalizeTags;
    NothingToDoExactlyWhen(src, Reconciled(src, dst));
    forall n | n in src
      ensures Equivalent(src[n], Reconciled(src, dst)[n]) <==> n in dst || src[n].quotaEnabled
    {
    }
  }

  /** A second apply always converges. */
  lemma SecondApplyConverges(src: Table, dst: Table)
    ensures NothingToDo(src, Reconciled(src, Reconciled(src, dst)))
  {
    ApplyConvergesExactlyWhen(src, Reconciled(src, dst));
  }

  /** A user added to one server whose quota is then switched off. */
  const QUOTA_OFF := User(Identity("id", "u@global", true, None, "", ""), None, false, false, None)

  /** Copying such a server to an empty one leaves work for a second apply: the insert switched the
      quota back on. */
  lemma QuotaOffNeedsSecondApply()
    ensures var (added, first) := ApplyOn(map[], AddUser("u", QUOTA_OFF, true), 0);
      var (src, second) := ApplyOn(added, SetQuota("u", 0, false), 0);
      first && second && Collisionless(src, map[]) && !NothingToDo(src, Reconciled(src, map[]))
  {
    assert Split("", ',') == [""];
    assert TagsStorable("");
    var none: Table := map[];
    var added, src := map["u" := QUOTA_OFF.(quotaEnabled := true)], map["u" := QUOTA_OFF];
    assert ApplyOn(none, AddUser("u", QUOTA_OFF, true), 0) == (added, true);
    assert Changed(added["u"], SetQuota("u", 0, false), 0) == QUOTA_OFF;
    assert added["u" := QUOTA_OFF] == src && !EmailTaken(added, "u", "u@global");
    ApplyConvergesExactlyWhen(src, map[]);
    assert "u" in src && !src["u"].quotaEnabled;
  }
}
