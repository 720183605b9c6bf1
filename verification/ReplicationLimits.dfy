/** Reached fleets on which one more command leaves the servers different. */
module ReplicationLimits {
  import opened Rows
  import opened Text
  import opened Sorting
  import opened Identities
  import opened Users
  import opened Replication
  import opened RemoteFailures

  // ---------------------------------------------------------------------------------------------
  // Two servers without users

  const TWO := [Node("a", true, map[]), Node("b", true, map[])]
  const ADDED := [ServerAdd("a", false, true), ServerAdd("b", true, true)]

  lemma EmptyServersStayEmpty(nodes: seq<Node>, i: nat)
    requires i < |nodes| && forall j :: 0 <= j < |nodes| ==> nodes[j].users == map[]
    ensures Entries(nodes) == [] && Consistent(Entries(nodes)) && Materialize(nodes, i) == (nodes, true)
  {
    hide Listing;
    if Entries(nodes) != [] {
      EntriesMembers(nodes, Entries(nodes)[0]);
    }
    assert Canonical([]) == map[];
    OrderedItems({});
    assert |Ordered({})| == |multiset(Ordered({}))| == 0;
    assert nodes[i := nodes[i].(users := map[])] == nodes;
  }

  lemma AddFirst()
    ensures Step([], ADDED[0]) == [Node("a", true, map[])]
  {
    hide Materialize;
    var one := [Node("a", true, map[])];
    assert [][..0] + one + [][0..] == one;
    EmptyServersStayEmpty(one, 0);
  }

  lemma AddSecond()
    ensures Step([Node("a", true, map[])], ADDED[1]) == TWO
  {
    hide Materialize;
    var one := [Node("a", true, map[])];
    EmptyServersStayEmpty(one, 0);
    assert Place(one[1..], "b") == 0 && Place(one, "b") == 1;
    assert one[..1] + [Node("b", true, map[])] + one[1..] == TWO;
    EmptyServersStayEmpty(TWO, 1);
  }

  lemma TwoServersAreReached()
    ensures Run([], ADDED) == TWO && Healthy(TWO) && AllHave(TWO, map[]) && EnabledCount(TWO) == 2
  {
    hide Step;
    AddFirst();
    AddSecond();
    assert ADDED[1..] == [ADDED[1]] && [ADDED[1]][1..] == [];
    RunKeeps([], ADDED);
    assert TWO[..1][..0] == [] && TWO[..1] == [TWO[0]];
  }

  // ---------------------------------------------------------------------------------------------
  // A tag given twice

  lemma TwiceX()
    ensures !TagsStorable("x,x")
  {
    assert "x" + [','] + "x" == "x,x";
    SplitAtSep("x", "x", ',');
    SplitWithoutSep("x", ',');
    assert Split("x,x", ',') == ["x", "x"];
    assert Trim("x") == "x";
    assert ["x", "x"][1..] == ["x"] && ["x"][1..] == [];
    assert NonBlank(["x"]) == ["x"];
    assert ParseCSV("x,x") == ["x", "x"];
  }

  const REPEATING := User(Identity("id", "u@global", true, None, "", "x,x"), None, true, false, None)

  /** Two empty servers are reached by registering them; adding a user whose tags are "x,x" then leaves
      the user on one of them only. */
  lemma RepeatedTagSplitsServers()
    ensures Replicated(Run([], ADDED))
    ensures !Replicated(Mutate(Run([], ADDED), AddUser("u", REPEATING, true), true, _ => 0, ALL_FINE).0)
  {
    hide Mutate, Run, Consistent, Entries, TagsStorable, Healthy;
    TwoServersAreReached();
    TwiceX();
    EmptyServersStayEmpty(TWO, 0);
    HealthyIsReplicated(TWO);
    AddKeepsReplicasExactlyWhen(TWO, "u", REPEATING, true, 0, ALL_FINE);
  }

  lemma HealthyIsReplicated(nodes: seq<Node>)
    requires Healthy(nodes)
    ensures Replicated(nodes)
  {
  }

  // ---------------------------------------------------------------------------------------------
  // A date between two clock readings

  /** A command on the two servers that each of them carries out. */
  lemma BothServersDo(nodes: seq<Node>, ids: IdTable, op: Op, now: int)
    requires |nodes| == 2 && SameShape(TWO, nodes) && Healthy(nodes) && AllHave(nodes, ids)
    requires IdApply(ids, op, now).1 && (op.name in ids <==> !op.AddUser?)
    ensures var after := Step(nodes, UserCommand(op, true, now, ALL_FINE));
      SameShape(TWO, after) && AllHave(after, IdApply(ids, op, now).0)
  {
    hide Entries, Consistent, Ids, IdApply, ApplyOn, Healthy;
    var clock: nat -> int := _ => now;
    ReadyForCommand(nodes, ids, op);
    FanOutSucceeds(nodes, op, clock, ALL_FINE, |nodes|, ids);
  }

  lemma ReadyForCommand(nodes: seq<Node>, ids: IdTable, op: Op)
    requires |nodes| == 2 && SameShape(TWO, nodes) && Healthy(nodes) && AllHave(nodes, ids)
    requires op.name in ids <==> !op.AddUser?
    ensures Resolves(nodes, true) && Precheck(nodes, op)
  {
    hide Entries, Consistent, Healthy;
    HealthyIsCompatible(nodes);
    CompatibleIsConsistent(nodes);
    assert EnabledAt(nodes, 0);
    SomeEnabled(nodes);
    forall i | EnabledAt(nodes, i) ensures op.name in nodes[i].users <==> !op.AddUser? {
      IdsHas(nodes[i].users, op.name);
    }
  }

  const PLAIN := User(Identity("id", "u@global", true, None, "", ""), None, true, false, None)
  const ADD_PLAIN := UserCommand(AddUser("u", PLAIN, true), true, 0, ALL_FINE)
  const DISABLE_PLAIN := UserCommand(SetEnabled("u", false), true, 0, ALL_FINE)

  lemma NoTags()
    ensures TagsStorable("")
  {
    assert Split("", ',') == [""];
  }

  lemma NameIsClean()
    ensures CleanName("u")
  {
  }

  /** Both servers with one disabled user. */
  lemma DisabledUserIsReached() returns (nodes: seq<Node>)
    ensures nodes == Run([], ADDED + [ADD_PLAIN, DISABLE_PLAIN]) && SameShape(TWO, nodes) && Healthy(nodes)
    ensures AllHave(nodes, map["u" := PLAIN.identity.(enabled := false)])
  {
    hide Step, Healthy, AllHave, TagsStorable, CleanName;
    NoTags();
    NameIsClean();
    TwoServersAreReached();
    RunAppends([], ADDED, [ADD_PLAIN, DISABLE_PLAIN]);
    var one := Step(TWO, ADD_PLAIN);
    BothServersDo(TWO, map[], ADD_PLAIN.op, 0);
    assert IdApply(map[], ADD_PLAIN.op, 0).0 == map["u" := PLAIN.identity];
    assert [ADD_PLAIN, DISABLE_PLAIN][1..] == [DISABLE_PLAIN] && [DISABLE_PLAIN][1..] == [];
    assert Run(TWO, [ADD_PLAIN, DISABLE_PLAIN]) == Run(one, [DISABLE_PLAIN]);
    RunKeeps(TWO, [ADD_PLAIN]);
    assert [ADD_PLAIN][1..] == [] && Run(TWO, [ADD_PLAIN]) == one;
    BothServersDo(one, map["u" := PLAIN.identity], DISABLE_PLAIN.op, 0);
    nodes := Step(one, DISABLE_PLAIN);
    RunKeeps(one, [DISABLE_PLAIN]);
    assert Run(one, [DISABLE_PLAIN]) == nodes;
    assert IdApply(map["u" := PLAIN.identity], DISABLE_PLAIN.op, 0).0 == map["u" := PLAIN.identity.(enabled := false)];
  }

  /** With the clock at 4 on the first server and at 6 on the second, setting the expiry of a disabled
      user to 5 enables it on the first server only. */
  lemma DateBetweenReadingsSplitsServers()
    ensures var nodes, clock := Run([], ADDED + [ADD_PLAIN, DISABLE_PLAIN]), (i: nat) => if i == 0 then 4 else 6;
      Replicated(nodes) && !Replicated(Mutate(nodes, SetExpiry("u", Some(5)), true, clock, ALL_FINE).0)
  {
    hide Mutate, Run, Consistent, Entries, Healthy;
    var nodes := DisabledUserIsReached();
    var clock: nat -> int := (i: nat) => if i == 0 then 4 else 6;
    var ids := map["u" := PLAIN.identity.(enabled := false)];
    HealthyIsReplicated(nodes);
    ReadyForCommand(nodes, ids, SetExpiry("u", Some(5)));
    ExpiryKeepsReplicasExactlyWhen(nodes, "u", Some(5), true, clock, ALL_FINE);
    assert EnabledAt(nodes, 0) && EnabledAt(nodes, 1);
    assert !SameSide(nodes, 5, clock);
    forall i | EnabledAt(nodes, i) && "u" in nodes[i].users ensures !nodes[i].users["u"].identity.enabled {
      assert Ids(nodes[i].users)["u"] == nodes[i].users["u"].identity;
    }
  }

  // ---------------------------------------------------------------------------------------------
  // A deploy in the middle of a command

  /** Both servers with one enabled user. */
  lemma EnabledUserIsReached() returns (nodes: seq<Node>)
    ensures nodes == Run([], ADDED + [ADD_PLAIN]) && SameShape(TWO, nodes) && Healthy(nodes)
    ensures AllHave(nodes, map["u" := PLAIN.identity])
  {
    hide Step, Healthy, AllHave, TagsStorable, CleanName;
    NoTags();
    NameIsClean();
    TwoServersAreReached();
    RunAppends([], ADDED, [ADD_PLAIN]);
    assert [ADD_PLAIN][1..] == [];
    nodes := Step(TWO, ADD_PLAIN);
    BothServersDo(TWO, map[], ADD_PLAIN.op, 0);
    assert IdApply(map[], ADD_PLAIN.op, 0).0 == map["u" := PLAIN.identity];
    RunKeeps(TWO, [ADD_PLAIN]);
    assert Run(TWO, [ADD_PLAIN]) == nodes;
  }

  const FIRST_REDEPLOYED: nat -> Remote := i => if i == 0 then Redeployed(true) else Fine

  lemma FirstOfTwo(nodes: seq<Node>)
    requires SameShape(TWO, nodes)
    ensures |nodes| == 2 && EnabledAt(nodes, 0) && EnabledAt(nodes, 1) && !Last(nodes, 0) && Last(nodes, 1)
  {
    assert EnabledAt(nodes, 1);
  }

  /** The user is removed while the first server's runtime call fails and its deploy succeeds: the
      command reports success, and the user is back on that server. */
  lemma RemovedUserComesBack()
    ensures var (after, ok) := Mutate(Run([], ADDED + [ADD_PLAIN]), RemoveUser("u"), true, _ => 0, FIRST_REDEPLOYED);
      ok && |after| == 2 && "u" in after[0].users && "u" !in after[1].users
  {
    hide Mutate, Run, Healthy, Consistent, Entries;
    var nodes := EnabledUserIsReached();
    var clock: nat -> int := _ => 0;
    var ids := map["u" := PLAIN.identity];
    FirstOfTwo(nodes);
    ReadyForCommand(nodes, ids, RemoveUser("u"));
    RemoveReaches(nodes, "u", true, clock, FIRST_REDEPLOYED, 0);
    RemoveReaches(nodes, "u", true, clock, FIRST_REDEPLOYED, 1);
    var after := Mutate(nodes, RemoveUser("u"), true, clock, FIRST_REDEPLOYED).0;
    assert BroughtBack(nodes, FIRST_REDEPLOYED, 0);
    IdsHas(after[0].users, "u");
    IdsHas(after[1].users, "u");
  }

  /** Disabled under the same outcome, the user is disabled on the first server only, and from then on
      every user command is refused. */
  lemma DisablingLocksTheFleet(next: Op, clock: nat -> int, remote: nat -> Remote)
    ensures var after := Mutate(Run([], ADDED + [ADD_PLAIN]), SetEnabled("u", false), true, _ => 0, FIRST_REDEPLOYED).0;
      !Replicated(after) && Mutate(after, next, true, clock, remote) == (after, false)
  {
    hide Mutate, Run, Healthy, Consistent, Entries;
    var nodes := EnabledUserIsReached();
    var ids, op := map["u" := PLAIN.identity], SetEnabled("u", false);
    FirstOfTwo(nodes);
    ReadyForCommand(nodes, ids, op);
    NoTags();
    NameIsClean();
    assert IdApply(ids, op, 0).0["u"] == PLAIN.identity.(enabled := false);
    NoIdentityChanges(nodes, op, 0, ids);
    ChangeKeepsReplicasExactlyWhen(nodes, op, true, 0, FIRST_REDEPLOYED);
    HalfChangeBlocksCommands(nodes, op, true, 0, FIRST_REDEPLOYED, next, clock, remote);
  }
}

