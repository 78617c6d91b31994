/** Which member an actor is, and what that member may do in a project. */
module Authorize {
  import opened Wrappers
  import opened Lookup
  import opened Access
  import opened AccessRuns

  // --------------------------------------------------------------- resolving

  /** The member carries one of the actor's identifiers on the platform. */
  predicate Matches(m: Member, workspace: int, platform: int, actor: set<int>) {
    m.workspace == workspace
    && exists i :: 0 <= i < |m.identities| && m.identities[i].0 == platform && m.identities[i].1 in actor
  }

  /** The first member in the list that matches. */
  function Resolve(s: seq<Member>, workspace: int, platform: int, actor: set<int>): (m: Option<Member>)
    ensures m.Some? ==> m.value in s && Matches(m.value, workspace, platform, actor)
    ensures m.None? ==> forall x :: x in s ==> !Matches(x, workspace, platform, actor)
  {
    if s == [] then None
    else if Matches(s[0], workspace, platform, actor) then Some(s[0])
    else
      var m := Resolve(s[1..], workspace, platform, actor);
      assert s == [s[0]] + s[1..];
      m
  }

  /** No two different members match the actor. */
  ghost predicate Unambiguous(s: seq<Member>, workspace: int, platform: int, actor: set<int>) {
    forall a, b :: a in s && b in s ==>
      Matches(a, workspace, platform, actor) && Matches(b, workspace, platform, actor) ==> a == b
  }

  /** The member resolved is the same however the list is ordered. */
  ghost predicate OrderFree(s: seq<Member>, workspace: int, platform: int, actor: set<int>) {
    forall other: seq<Member> :: multiset(other) == multiset(s) ==>
      Resolve(other, workspace, platform, actor) == Resolve(s, workspace, platform, actor)
  }

  /** Resolution is independent of list order exactly when the actor is unambiguous. */
  lemma OrderFreeExactly(s: seq<Member>, workspace: int, platform: int, actor: set<int>)
    ensures OrderFree(s, workspace, platform, actor) <==> Unambiguous(s, workspace, platform, actor)
  {
    if Unambiguous(s, workspace, platform, actor) {
      forall other: seq<Member> | multiset(other) == multiset(s)
        ensures Resolve(other, workspace, platform, actor) == Resolve(s, workspace, platform, actor)
      {
        SameMembers(other, s);
      }
    } else {
      var a, b :|
        a in s && b in s && Matches(a, workspace, platform, actor) && Matches(b, workspace, platform, actor) && a != b;
      var front := MovedToFront(s, a);
      var other := MovedToFront(s, b);
      assert Resolve(front, workspace, platform, actor) == Some(a);
      assert Resolve(other, workspace, platform, actor) == Some(b);
    }
  }

  lemma SameMembers(a: seq<Member>, b: seq<Member>)
    requires multiset(a) == multiset(b)
    ensures forall m :: m in a <==> m in b
  {
    assert forall m :: m in a <==> m in multiset(a);
    assert forall m :: m in b <==> m in multiset(b);
  }

  lemma MovedToFront(s: seq<Member>, m: Member) returns (front: seq<Member>)
    requires m in s
    ensures multiset(front) == multiset(s) && front != [] && front[0] == m
  {
    var k :| 0 <= k < |s| && s[k] == m;
    front := [m] + Without(s, k);
    assert s == s[..k] + [m] + s[k + 1..];
  }

  /** An actor with one identifier is never ambiguous, in any run. */
  lemma SingleIdUnambiguous(calls: seq<Call>, workspace: int, platform: int, id: int)
    requires Legal(calls)
    ensures Unambiguous(StoreRun(calls).members, workspace, platform, {id})
    ensures OrderFree(StoreRun(calls).members, workspace, platform, {id})
  {
    var s := StoreRun(calls).members;
    ReachableInv(calls);
    forall a, b | a in s && b in s && Matches(a, workspace, platform, {id}) && Matches(b, workspace, platform, {id})
      ensures a == b
    {
      OneHolder(s, a, b, (platform, id));
    }
    OrderFreeExactly(s, workspace, platform, {id});
  }

  lemma OneHolder(s: seq<Member>, a: Member, b: Member, identity: Identity)
    requires IdentitiesApart(s) && a in s && b in s && a.workspace == b.workspace && InCommon(a, identity, b)
    ensures a == b
  {
  }

  lemma TwoCalls(a: Call, b: Call)
    ensures StoreRun([a, b]) == After(After(EMPTY, a), b)
    ensures Legal([a, b]) <==> WellFormed(EMPTY, a) && WellFormed(After(EMPTY, a), b)
  {
    var one, two := [a], [a, b];
    assert two[..1] == one && one[..0] == [];
    assert Legal([]);
    assert StoreRun(one) == After(EMPTY, a);
    assert Legal(one) <==> WellFormed(EMPTY, a);
  }

  const FIRST := MemberRequest(0, None, 7, "a", Some(Owner), None, [Some((0, 1))])
  const SECOND := MemberRequest(0, None, 8, "b", Some(Owner), None, [Some((0, 2))])
  const ONE := Member(7, 0, "a", Owner, Active, [(0, 1)])
  const TWO := Member(8, 0, "b", Owner, Active, [(0, 2)])

  lemma TwoCreated()
    ensures After(EMPTY, UpsertMember(FIRST)) == State([ONE], [], [])
    ensures After(State([ONE], [], []), UpsertMember(SECOND)) == State([ONE, TWO], [], [])
  {
    Created(EMPTY, FIRST, ONE);
    Created(State([ONE], [], []), SECOND, TWO);
    assert [] + [ONE] == [ONE] && [ONE] + [TWO] == [ONE, TWO];
  }

  /** With two identifiers linked to different members, the order of the list decides. */
  lemma TwoIdsAmbiguous() returns (calls: seq<Call>)
    ensures Legal(calls) && !OrderFree(StoreRun(calls).members, 0, 0, {1, 2})
  {
    var a, b := UpsertMember(FIRST), UpsertMember(SECOND);
    calls := [a, b];
    TwoCreated();
    assert WellFormed(State([ONE], [], []), b) && WellFormed(EMPTY, a);
    TwoCalls(a, b);
    TwoHolders(ONE, TWO);
  }

  lemma TwoHolders(one: Member, two: Member)
    requires one == Member(7, 0, "a", Owner, Active, [(0, 1)]) && two == Member(8, 0, "b", Owner, Active, [(0, 2)])
    ensures !OrderFree([one, two], 0, 0, {1, 2})
  {
    var s := [one, two];
    assert s[0] in s && s[1] in s;
    assert Matches(one, 0, 0, {1, 2}) by { assert one.identities[0] == (0, 1); }
    assert Matches(two, 0, 0, {1, 2}) by { assert two.identities[0] == (0, 2); }
    OrderFreeExactly(s, 0, 0, {1, 2});
  }

  /** Creating an owner with one free identity appends it. */
  lemma Created(s: State, r: MemberRequest, m: Member)
    requires r.id.None? && r.role == Some(Owner) && r.status.None? && |r.identities| == 1 && r.identities[0].Some?
    requires m == Member(r.newId, r.workspace, r.name, Owner, Active, [r.identities[0].value])
    requires !Taken(s.members, r.workspace, r.newId, [r.identities[0].value])
    ensures UpsertMemberStep(s, r) == Ok(s.(members := s.members + [m]))
  {
    assert Values(r.identities) == [r.identities[0].value];
    assert Distinct([r.identities[0].value]);
    DedupeDistinct([r.identities[0].value]);
  }

  // -------------------------------------------------------------- authorizing

  datatype Reason =
    | OpenAccess | WorkspaceRole | ByProjectRole | MemberRequired | MemberSuspended | ProjectMemberRequired | NotGranted

  datatype Decision = Decision(
    allowed: bool, mode: Mode, reason: Reason, member: Option<Member>, membership: Option<Membership>,
    capabilities: set<Capability>)

  const ALL := {InvokeAgent, WriteMemory, ManageRoutines, ManageWorkflows}

  function ByRole(role: Role): set<Capability> {
    match role
    case Owner => ALL
    case Admin => ALL
    case Plain => {InvokeAgent, WriteMemory}
    case Guest => {InvokeAgent}
  }

  function InProject(role: ProjectRole): set<Capability> {
    match role
    case Manager => ALL
    case Contributor => {InvokeAgent, WriteMemory}
    case Viewer => {}
  }

  function ModeOf(s: State, workspace: int, project: int): Mode {
    var k := First(PolicyKeys(s.policies), (workspace, project));
    if k < |s.policies| then s.policies[k].mode else Open
  }

  function MembershipOf(s: State, workspace: int, project: int, member: int): (m: Option<Membership>)
    ensures m.Some? ==> m.value in s.memberships && m.value.member == member
  {
    var k := First(MembershipKeys(s.memberships), (workspace, project, member));
    if k < |s.memberships| then Some(s.memberships[k]) else None
  }

  function Decide(s: State, workspace: int, project: int, platform: int, actor: set<int>, wanted: Capability): Decision
  {
    var mode := ModeOf(s, workspace, project);
    var member := Resolve(s.members, workspace, platform, actor);
    if mode.Open? then Decision(true, mode, OpenAccess, member, None, ALL)
    else if member.None? then Decision(false, mode, MemberRequired, None, None, {})
    else if !member.value.status.Active? then Decision(false, mode, MemberSuspended, member, None, {})
    else if member.value.role.Owner? || member.value.role.Admin? then
      Decision(true, mode, WorkspaceRole, member, None, ALL)
    else if mode.Workspace? then
      var granted := ByRole(member.value.role);
      Decision(wanted in granted, mode, if wanted in granted then WorkspaceRole else NotGranted, member, None, granted)
    else
      var membership := MembershipOf(s, workspace, project, member.value.id);
      if membership.None? then Decision(false, mode, ProjectMemberRequired, member, None, {})
      else
        var granted := InProject(membership.value.role);
        var reason := if wanted in granted then ByProjectRole else NotGranted;
        Decision(wanted in granted, mode, reason, member, membership, granted)
  }

  /** The capabilities a member has in a project, whoever asks. */
  ghost predicate Entitled(s: State, workspace: int, project: int, m: Member, wanted: Capability) {
    && m.status.Active?
    && match ModeOf(s, workspace, project)
       case Open => true
       case Workspace => wanted in ByRole(m.role)
       case Members =>
         || m.role.Owner? || m.role.Admin?
         || exists p :: p in s.memberships && p.workspace == workspace && p.project == project && p.member == m.id
                        && wanted in InProject(p.role)
  }

  lemma DecisionConsistent(s: State, workspace: int, project: int, platform: int, actor: set<int>, wanted: Capability)
    ensures var d := Decide(s, workspace, project, platform, actor, wanted);
            && (d.allowed <==> wanted in d.capabilities)
            && (d.allowed <==> d.reason in {OpenAccess, WorkspaceRole, ByProjectRole})
  {
  }

  /** Outside open projects the resolved member's own rights decide. */
  lemma MemberDecides(s: State, workspace: int, project: int, platform: int, actor: set<int>, wanted: Capability)
    requires Inv(s) && !ModeOf(s, workspace, project).Open?
    ensures var member := Resolve(s.members, workspace, platform, actor);
            Decide(s, workspace, project, platform, actor, wanted).allowed <==>
            (member.Some? && Entitled(s, workspace, project, member.value, wanted))
  {
    var member := Resolve(s.members, workspace, platform, actor);
    assert wanted in ALL;
    if member.Some? {
      OneMembership(s, workspace, project, member.value.id);
    }
  }

  /** Outside open projects an actor is allowed exactly when some member linked to it is entitled. */
  lemma EntitledDecides(calls: seq<Call>, workspace: int, project: int, platform: int, id: int, wanted: Capability)
    requires Legal(calls)
    ensures var s := StoreRun(calls);
            Decide(s, workspace, project, platform, {id}, wanted).allowed <==>
            (ModeOf(s, workspace, project).Open?
             || exists m :: m in s.members && Matches(m, workspace, platform, {id})
                            && Entitled(s, workspace, project, m, wanted))
  {
    var s := StoreRun(calls);
    SingleIdUnambiguous(calls, workspace, platform, id);
    ReachableInv(calls);
    if !ModeOf(s, workspace, project).Open? {
      MemberDecides(s, workspace, project, platform, {id}, wanted);
    }
  }

  // ------------------------------------------ the decision in terms of stored records

  /** What each capability takes: anybody may invoke the agent, a guest writes no memory, managers manage. */
  predicate RoleMay(role: Role, wanted: Capability) {
    match wanted
    case InvokeAgent => true
    case WriteMemory => role != Guest
    case ManageRoutines => role == Owner || role == Admin
    case ManageWorkflows => role == Owner || role == Admin
  }

  /** In a project a viewer may do nothing and a contributor manages nothing. */
  predicate ProjectRoleMay(role: ProjectRole, wanted: Capability) {
    match wanted
    case InvokeAgent => role != Viewer
    case WriteMemory => role != Viewer
    case ManageRoutines => role == Manager
    case ManageWorkflows => role == Manager
  }

  lemma TablesAgree(role: Role, inProject: ProjectRole, wanted: Capability)
    ensures wanted in ByRole(role) <==> RoleMay(role, wanted)
    ensures wanted in InProject(inProject) <==> ProjectRoleMay(inProject, wanted)
  {
  }

  /** The access mode stored for the project, open without one. */
  ghost predicate ModeIs(s: State, workspace: int, project: int, mode: Mode) {
    || (exists p :: p in s.policies && p.workspace == workspace && p.project == project && p.mode == mode)
    || (mode == Open && forall p :: p in s.policies ==> p.workspace != workspace || p.project != project)
  }

  lemma ModeExact(s: State, workspace: int, project: int, mode: Mode)
    requires Inv(s)
    ensures ModeIs(s, workspace, project, mode) <==> ModeOf(s, workspace, project) == mode
  {
    if p :| p in s.policies && p.workspace == workspace && p.project == project {
      PolicyFound(s, p);
    }
    var k := First(PolicyKeys(s.policies), (workspace, project));
    if k < |s.policies| {
      assert PolicyKeys(s.policies)[k] == (s.policies[k].workspace, s.policies[k].project);
      PolicyFound(s, s.policies[k]);
    }
  }

  lemma PolicyFound(s: State, p: ProjectPolicy)
    requires Inv(s) && p in s.policies
    ensures ModeOf(s, p.workspace, p.project) == p.mode
    ensures forall q :: q in s.policies && q.workspace == p.workspace && q.project == p.project ==> q == p
  {
    var keys := PolicyKeys(s.policies);
    var i :| 0 <= i < |keys| && s.policies[i] == p;
    assert keys[i] == (p.workspace, p.project);
    forall q | q in s.policies && q.workspace == p.workspace && q.project == p.project
      ensures q == p
    {
      var j :| 0 <= j < |keys| && s.policies[j] == q;
      assert keys[j] == keys[i];
    }
  }

  /** An active member of the workspace with this identity. */
  ghost predicate ActiveWith(s: State, workspace: int, platform: int, id: int, m: Member) {
    m in s.members && m.workspace == workspace && m.status == Active && (platform, id) in m.identities
  }

  ghost predicate MayAs(s: State, workspace: int, project: int, m: Member, wanted: Capability) {
    || ModeIs(s, workspace, project, Open)
    || (ModeIs(s, workspace, project, Workspace) && RoleMay(m.role, wanted))
    || (ModeIs(s, workspace, project, Members)
        && (|| m.role == Owner || m.role == Admin
            || exists p :: p in s.memberships && p.workspace == workspace && p.project == project
                           && p.member == m.id && ProjectRoleMay(p.role, wanted)))
  }

  lemma EntitledIsMayAs(s: State, workspace: int, project: int, m: Member, wanted: Capability)
    requires Inv(s) && m.status == Active
    ensures Entitled(s, workspace, project, m, wanted) <==> MayAs(s, workspace, project, m, wanted)
  {
    ModeExact(s, workspace, project, Open);
    ModeExact(s, workspace, project, Workspace);
    ModeExact(s, workspace, project, Members);
    TablesAgree(m.role, Viewer, wanted);
    assert forall p :: p in s.memberships ==>
      (wanted in InProject(p.role) <==> ProjectRoleMay(p.role, wanted)) by {
      forall p | p in s.memberships
        ensures wanted in InProject(p.role) <==> ProjectRoleMay(p.role, wanted)
      {
        TablesAgree(m.role, p.role, wanted);
      }
    }
  }

  lemma MatchesExact(m: Member, workspace: int, platform: int, id: int)
    ensures Matches(m, workspace, platform, {id}) <==> m.workspace == workspace && (platform, id) in m.identities
  {
    if (platform, id) in m.identities {
      var i :| 0 <= i < |m.identities| && m.identities[i] == (platform, id);
      assert m.identities[i].0 == platform && m.identities[i].1 in {id};
    }
    if Matches(m, workspace, platform, {id}) {
      var i :| 0 <= i < |m.identities| && m.identities[i].0 == platform && m.identities[i].1 in {id};
      assert m.identities[i] == (platform, id);
    }
  }

  /**
    In every reachable state an actor with one identifier is allowed exactly when
    the project is open or an active member with that identity may do it: by its
    workspace role where the mode is the workspace's, and where it is the project's
    as owner, administrator or by its role in the project.
   */
  lemma DecisionExact(calls: seq<Call>, workspace: int, project: int, platform: int, id: int, wanted: Capability)
    requires Legal(calls)
    ensures var s := StoreRun(calls);
            Decide(s, workspace, project, platform, {id}, wanted).allowed <==>
            (ModeIs(s, workspace, project, Open)
             || exists m :: ActiveWith(s, workspace, platform, id, m) && MayAs(s, workspace, project, m, wanted))
  {
    var s := StoreRun(calls);
    ReachableInv(calls);
    EntitledDecides(calls, workspace, project, platform, id, wanted);
    ModeExact(s, workspace, project, Open);
    forall m | m in s.members
      ensures Matches(m, workspace, platform, {id}) && Entitled(s, workspace, project, m, wanted) <==>
              ActiveWith(s, workspace, platform, id, m) && MayAs(s, workspace, project, m, wanted)
    {
      MatchesExact(m, workspace, platform, id);
      if m.status == Active {
        EntitledIsMayAs(s, workspace, project, m, wanted);
      }
    }
  }

  lemma OneMembership(s: State, workspace: int, project: int, member: int)
    requires Inv(s)
    ensures forall p :: p in s.memberships && p.workspace == workspace && p.project == project && p.member == member ==>
              MembershipOf(s, workspace, project, member) == Some(p)
    ensures MembershipOf(s, workspace, project, member).Some? ==>
              var p := MembershipOf(s, workspace, project, member).value;
              p.workspace == workspace && p.project == project
  {
    var keys := MembershipKeys(s.memberships);
    forall p | p in s.memberships && p.workspace == workspace && p.project == project && p.member == member
      ensures MembershipOf(s, workspace, project, member) == Some(p)
    {
      var j :| 0 <= j < |s.memberships| && s.memberships[j] == p;
      assert keys[j] == (workspace, project, member);
    }
    var k := First(keys, (workspace, project, member));
    assert k < |keys| ==> keys[k] == (s.memberships[k].workspace, s.memberships[k].project, s.memberships[k].member);
  }

  /** Once its member is gone, an identity matches nobody in the workspace. */
  lemma NobodyLeft(s: seq<Member>, i: nat, platform: int, external: int)
    requires IdentitiesApart(s) && i < |s| && (platform, external) in s[i].identities
    ensures forall m :: m in Without(s, i) ==> !Matches(m, s[i].workspace, platform, {external})
  {
    var less := Without(s, i);
    forall m | m in less
      ensures !Matches(m, s[i].workspace, platform, {external})
    {
      var j :| 0 <= j < |less| && less[j] == m;
      var at := if j < i then j else j + 1;
      assert s[at] == m;
      if Matches(m, s[i].workspace, platform, {external}) {
        assert InCommon(s[at], (platform, external), s[i]);
      }
    }
  }

  lemma NobodyResolved(s: State, workspace: int, project: int, platform: int, external: int, wanted: Capability)
    requires forall m :: m in s.members ==> !Matches(m, workspace, platform, {external})
    ensures var d := Decide(s, workspace, project, platform, {external}, wanted);
            d.member.None? && (d.allowed <==> d.mode.Open?)
  {
  }

  /** Removing a member shuts out every actor known by its identities, in every project that is not open. */
  lemma RemovalShutsOut(calls: seq<Call>, workspace: int, id: int, k: nat, project: int, wanted: Capability)
    requires Legal(calls)
    requires var s := StoreRun(calls).members;
             FindMember(s, workspace, id) < |s| && k < |s[FindMember(s, workspace, id)].identities|
    requires RemoveMemberStep(StoreRun(calls), workspace, id).Ok?
    ensures var s := StoreRun(calls);
            var (platform, external) := s.members[FindMember(s.members, workspace, id)].identities[k];
            var d := Decide(After(s, RemoveMember(workspace, id)), workspace, project, platform, {external}, wanted);
            d.member.None? && (d.allowed <==> d.mode.Open?)
  {
    var s := StoreRun(calls);
    var i := FindMember(s.members, workspace, id);
    var (platform, external) := s.members[i].identities[k];
    ReachableInv(calls);
    NobodyLeft(s.members, i, platform, external);
    NobodyResolved(After(s, RemoveMember(workspace, id)), workspace, project, platform, external, wanted);
  }
}
