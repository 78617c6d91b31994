/** Workspace members, their client identities, project memberships and authorization. */
module Access {
  import opened Wrappers
  import opened Lookup

  datatype Role = Owner | Admin | Plain | Guest

  datatype Status = Active | Suspended

  datatype ProjectRole = Manager | Contributor | Viewer

  datatype Mode = Open | Workspace | Members

  datatype Capability = InvokeAgent | WriteMemory | ManageRoutines | ManageWorkflows

  /** (platform, external id) */
  type Identity = (int, int)

  datatype Member = Member(id: int, workspace: int, name: string, role: Role, status: Status, identities: seq<Identity>)

  datatype Membership = Membership(workspace: int, project: int, member: int, role: ProjectRole)

  datatype ProjectPolicy = ProjectPolicy(workspace: int, project: int, mode: Mode)

  datatype State = State(members: seq<Member>, memberships: seq<Membership>, policies: seq<ProjectPolicy>)

  const EMPTY := State([], [], [])

  function MemberIds(s: seq<Member>): (keys: seq<int>)
    ensures |keys| == |s|
  {
    seq(|s|, i requires 0 <= i < |s| => s[i].id)
  }

  function MemberKeys(s: seq<Member>): (keys: seq<(int, int)>)
    ensures |keys| == |s|
  {
    seq(|s|, i requires 0 <= i < |s| => (s[i].workspace, s[i].id))
  }

  function MembershipKeys(s: seq<Membership>): (keys: seq<(int, int, int)>)
    ensures |keys| == |s|
  {
    seq(|s|, i requires 0 <= i < |s| => (s[i].workspace, s[i].project, s[i].member))
  }

  function PolicyKeys(s: seq<ProjectPolicy>): (keys: seq<(int, int)>)
    ensures |keys| == |s|
  {
    seq(|s|, i requires 0 <= i < |s| => (s[i].workspace, s[i].project))
  }

  function FindMember(s: seq<Member>, workspace: int, id: int): (k: nat)
    ensures k <= |s|
    ensures k < |s| ==> s[k].workspace == workspace && s[k].id == id
    ensures forall i :: 0 <= i < k ==> s[i].workspace != workspace || s[i].id != id
  {
    assert forall i :: 0 <= i < |s| ==> MemberKeys(s)[i] == (s[i].workspace, s[i].id);
    First(MemberKeys(s), (workspace, id))
  }

  predicate ActiveOwner(m: Member, workspace: int) { m.workspace == workspace && m.role.Owner? && m.status.Active? }

  /** How many active owners the workspace has besides one member. */
  function OwnerCount(s: seq<Member>, workspace: int, except: int): (n: nat)
    ensures n > 0 <==> exists i :: 0 <= i < |s| && ActiveOwner(s[i], workspace) && s[i].id != except
  {
    if s == [] then 0
    else
      var n := |s| - 1;
      OwnerCount(s[..n], workspace, except) + if ActiveOwner(s[n], workspace) && s[n].id != except then 1 else 0
  }

  predicate Shares(m: Member, identities: seq<Identity>) {
    exists i :: 0 <= i < |m.identities| && m.identities[i] in identities
  }

  predicate Taken(s: seq<Member>, workspace: int, except: int, identities: seq<Identity>) {
    exists i :: 0 <= i < |s| && s[i].workspace == workspace && s[i].id != except && Shares(s[i], identities)
  }

  datatype Error = IdentityBlank | IdentityRequired | MemberNotFound | FirstMustBeOwner | IdentityLinked | LastOwner

  /** `id` names the member to update; `newId` is the identifier drawn for a new one. A blank identity is None. */
  datatype MemberRequest = MemberRequest(
    workspace: int, id: Option<int>, newId: int, name: string, role: Option<Role>, status: Option<Status>,
    identities: seq<Option<Identity>>)

  function Values(raw: seq<Option<Identity>>): seq<Identity>
    requires None !in raw
  {
    seq(|raw|, i requires 0 <= i < |raw| => if raw[i].Some? then raw[i].value else (0, 0))
  }

  // --------------------------------------------- what a request asks for, by its fields

  /** Name and identities are the request's; role and status too if it gives them, else those kept. */
  ghost predicate Honours(r: MemberRequest, role: Role, status: Status, id: int, m: Member) {
    && m.id == id && m.workspace == r.workspace && m.name == r.name
    && (r.role.Some? ==> m.role == r.role.value) && (r.role.None? ==> m.role == role)
    && (r.status.Some? ==> m.status == r.status.value) && (r.status.None? ==> m.status == status)
    && Distinct(m.identities) && (forall x :: x in m.identities <==> Some(x) in r.identities)
  }

  /** Another member of the workspace has one of the identities. */
  ghost predicate Linked(s: seq<Member>, r: MemberRequest, id: int) {
    exists m, x :: m in s && m.workspace == r.workspace && m.id != id && x in m.identities && Some(x) in r.identities
  }

  /** An active owner who is the only one of the workspace. */
  ghost predicate OnlyOwner(s: seq<Member>, m: Member) {
    && m.role == Owner && m.status == Active
    && forall x :: x in s && x.workspace == m.workspace && x.id != m.id ==> x.role != Owner || x.status != Active
  }

  lemma TakenExact(s: seq<Member>, r: MemberRequest, id: int)
    requires None !in r.identities
    ensures Taken(s, r.workspace, id, Dedupe(Values(r.identities))) <==> Linked(s, r, id)
  {
    var identities := Dedupe(Values(r.identities));
    ValuesExact(r.identities);
    if Taken(s, r.workspace, id, identities) {
      var i :| 0 <= i < |s| && s[i].workspace == r.workspace && s[i].id != id && Shares(s[i], identities);
      var k :| 0 <= k < |s[i].identities| && s[i].identities[k] in identities;
      assert s[i] in s && s[i].identities[k] in s[i].identities;
    }
    if Linked(s, r, id) {
      var m, x :| m in s && m.workspace == r.workspace && m.id != id && x in m.identities && Some(x) in r.identities;
      var i :| 0 <= i < |s| && s[i] == m;
      var k :| 0 <= k < |m.identities| && m.identities[k] == x;
      assert Shares(s[i], identities);
    }
  }

  lemma ValuesExact(raw: seq<Option<Identity>>)
    requires None !in raw
    ensures forall x :: x in Values(raw) <==> Some(x) in raw
  {
    forall x
      ensures x in Values(raw) <==> Some(x) in raw
    {
      if x in Values(raw) {
        var i :| 0 <= i < |raw| && Values(raw)[i] == x;
        assert raw[i] in raw;
      }
      if Some(x) in raw {
        var i :| 0 <= i < |raw| && raw[i] == Some(x);
        assert Values(raw)[i] == x;
      }
    }
  }

  lemma OnlyOwnerExact(s: seq<Member>, m: Member)
    ensures OnlyOwner(s, m) <==> ActiveOwner(m, m.workspace) && OwnerCount(s, m.workspace, m.id) == 0
  {
    if OwnerCount(s, m.workspace, m.id) == 0 {
      forall x | x in s && x.workspace == m.workspace && x.id != m.id
        ensures x.role != Owner || x.status != Active
      {
        var i :| 0 <= i < |s| && s[i] == x;
        assert !ActiveOwner(s[i], m.workspace);
      }
    } else {
      var i :| 0 <= i < |s| && ActiveOwner(s[i], m.workspace) && s[i].id != m.id;
      assert s[i] in s;
    }
  }

  // ----------------------------------------------------------- specification

  datatype Call =
    | UpsertMember(request: MemberRequest)
    | RemoveMember(workspace: int, id: int)
    | SetPolicy(workspace: int, project: int, mode: Mode)
    | UpsertMembership(workspace: int, project: int, member: int, role: ProjectRole)
    | RemoveMembership(workspace: int, project: int, member: int)

  /** The guard that keeps the last active owner. */
  predicate LosesLastOwner(s: seq<Member>, was: Member, role: Role, status: Status) {
    && ActiveOwner(was, was.workspace) && (!role.Owner? || !status.Active?)
    && OwnerCount(s, was.workspace, was.id) == 0
  }

  function PutMember(s: State, k: nat, m: Member): State
    requires k <= |s.members|
  {
    s.(members := if k < |s.members| then s.members[k := m] else s.members + [m])
  }

  /** The updated or new member, and where it goes. */
  function Drafted(s: State, r: MemberRequest): (d: Result<(nat, Member), Error>)
    ensures d.Ok? ==> d.value.0 <= |s.members| && d.value.1.workspace == r.workspace
    ensures d.Ok? && d.value.0 < |s.members| ==>
      s.members[d.value.0].id == d.value.1.id && s.members[d.value.0].workspace == r.workspace
  {
    if None in r.identities then Err(IdentityBlank)
    else if r.identities == [] then Err(IdentityRequired)
    else
      var identities := Dedupe(Values(r.identities));
      var k := if r.id.Some? then FindMember(s.members, r.workspace, r.id.value) else |s.members|;
      if r.id.Some? && k == |s.members| then Err(MemberNotFound)
      else
        var role := if r.role.Some? then r.role.value else if k < |s.members| then s.members[k].role else Plain;
        var kept := k < |s.members|;
        var status := if r.status.Some? then r.status.value else if kept then s.members[k].status else Active;
        Ok((k, Member(if kept then s.members[k].id else r.newId, r.workspace, r.name, role, status, identities)))
  }

  predicate HasMembers(s: seq<Member>, workspace: int) { exists i :: 0 <= i < |s| && s[i].workspace == workspace }

  function UpsertMemberStep(s: State, r: MemberRequest): Result<State, Error> {
    match Drafted(s, r)
    case Err(e) => Err(e)
    case Ok((k, m)) =>
      if k == |s.members| && !HasMembers(s.members, r.workspace) && !m.role.Owner? then Err(FirstMustBeOwner)
      else if Taken(s.members, r.workspace, m.id, m.identities) then Err(IdentityLinked)
      else if k < |s.members| && LosesLastOwner(s.members, s.members[k], m.role, m.status) then Err(LastOwner)
      else Ok(PutMember(s, k, m))
  }

  function NotOf(memberships: seq<Membership>, member: int): (r: seq<Membership>)
    ensures forall m :: m in r <==> m in memberships && m.member != member
  {
    if memberships == [] then []
    else
      var n := |memberships| - 1;
      assert memberships == memberships[..n] + [memberships[n]];
      NotOf(memberships[..n], member) + if memberships[n].member != member then [memberships[n]] else []
  }

  function RemoveMemberStep(s: State, workspace: int, id: int): Result<State, Error> {
    var k := FindMember(s.members, workspace, id);
    if k == |s.members| then Ok(s)
    else if ActiveOwner(s.members[k], workspace) && OwnerCount(s.members, workspace, id) == 0 then Err(LastOwner)
    else Ok(State(Without(s.members, k), NotOf(s.memberships, id), s.policies))
  }

  function SetPolicyStep(s: State, p: ProjectPolicy): State {
    var k := First(PolicyKeys(s.policies), (p.workspace, p.project));
    s.(policies := if k < |s.policies| then s.policies[k := p] else s.policies + [p])
  }

  function UpsertMembershipStep(s: State, m: Membership): Result<State, Error> {
    if FindMember(s.members, m.workspace, m.member) == |s.members| then Err(MemberNotFound)
    else
      var k := First(MembershipKeys(s.memberships), (m.workspace, m.project, m.member));
      Ok(s.(memberships := if k < |s.memberships| then s.memberships[k := m] else s.memberships + [m]))
  }

  function RemoveMembershipStep(s: State, workspace: int, project: int, member: int): State {
    var k := First(MembershipKeys(s.memberships), (workspace, project, member));
    if k < |s.memberships| then s.(memberships := Without(s.memberships, k)) else s
  }

  function Step(s: State, call: Call): Result<State, Error> {
    match call
    case UpsertMember(r) => UpsertMemberStep(s, r)
    case RemoveMember(w, id) => RemoveMemberStep(s, w, id)
    case SetPolicy(w, p, mode) => Ok(SetPolicyStep(s, ProjectPolicy(w, p, mode)))
    case UpsertMembership(w, p, m, role) => UpsertMembershipStep(s, Membership(w, p, m, role))
    case RemoveMembership(w, p, m) => Ok(RemoveMembershipStep(s, w, p, m))
  }

  /** A refused call saves nothing. */
  function After(s: State, call: Call): State {
    var r := Step(s, call);
    if r.Ok? then r.value else s
  }

  predicate Done<T>(before: State, now: State, call: Call, r: Result<T, Error>) {
    match Step(before, call)
    case Ok(next) => r.Ok? && now == next
    case Err(e) => r == Err(e) && now == before
  }

  // ---------------------------------------------------------------- the store

  class AccessStore {
    var members: seq<Member>
    var memberships: seq<Membership>
    var policies: seq<ProjectPolicy>

    constructor ()
      ensures Now() == EMPTY
    {
      members, memberships, policies := [], [], [];
    }

    function Now(): State
      reads this
    {
      State(members, memberships, policies)
    }

    method UpsertOneMember(r: MemberRequest) returns (res: Result<Member, Error>)
      modifies this`members
      ensures Done(old(Now()), Now(), UpsertMember(r), res)
      ensures res.Ok? ==> res.value in members && res.value.workspace == r.workspace
      ensures var k := if r.id.Some? then FindMember(old(members), r.workspace, r.id.value) else |old(members)|;
              if None in r.identities then res == Err(IdentityBlank)
              else if r.identities == [] then res == Err(IdentityRequired)
              else if r.id.Some? && k == |old(members)| then res == Err(MemberNotFound)
              else if k == |old(members)| then
                if r.role != Some(Owner) && forall m :: m in old(members) ==> m.workspace != r.workspace then
                  res == Err(FirstMustBeOwner)
                else if Linked(old(members), r, r.newId) then res == Err(IdentityLinked)
                else
                  res.Ok? && Honours(r, Plain, Active, r.newId, res.value) && PutAt(old(members), members, k, res.value)
              else
                var was := old(members)[k];
                if Linked(old(members), r, was.id) then res == Err(IdentityLinked)
                else if OnlyOwner(old(members), was)
                        && (r.role !in {None, Some(Owner)} || r.status !in {None, Some(Active)}) then
                  res == Err(LastOwner)
                else
                  && res.Ok? && Honours(r, was.role, was.status, was.id, res.value)
                  && PutAt(old(members), members, k, res.value)
    {
      if None in r.identities { return Err(IdentityBlank); }
      ValuesExact(r.identities);
      if r.identities == [] { return Err(IdentityRequired); }
      var identities := Dedupe(Values(r.identities));
      var k := |members|;
      if r.id.Some? {
        k := FindMember(members, r.workspace, r.id.value);
        if k == |members| { return Err(MemberNotFound); }
      }
      var id, role, status := r.newId, Plain, Active;
      if k < |members| {
        id, role, status := members[k].id, members[k].role, members[k].status;
      }
      if r.role.Some? { role := r.role.value; }
      if r.status.Some? { status := r.status.value; }
      if k == |members| && !HasMembers(members, r.workspace) && !role.Owner? { return Err(FirstMustBeOwner); }
      TakenExact(members, r, id);
      if Taken(members, r.workspace, id, identities) { return Err(IdentityLinked); }
      if k < |members| {
        OnlyOwnerExact(members, members[k]);
      }
      if k < |members| && LosesLastOwner(members, members[k], role, status) { return Err(LastOwner); }
      var member := Member(id, r.workspace, r.name, role, status, identities);
      if k < |members| {
        members := members[k := member];
      } else {
        members := members + [member];
      }
      assert members[k] == member;
      return Ok(member);
    }

    method RemoveOneMember(workspace: int, id: int) returns (res: Result<Option<Member>, Error>)
      modifies this`members, this`memberships
      ensures Done(old(Now()), Now(), RemoveMember(workspace, id), res)
      ensures res.Ok? && res.value.Some? ==> res.value.value in old(members) && res.value.value.id == id
      ensures var k := FindMember(old(members), workspace, id);
              if k == |old(members)| then res == Ok(None) && members == old(members) && memberships == old(memberships)
              else if OnlyOwner(old(members), old(members)[k]) then res == Err(LastOwner)
              else
                && res == Ok(Some(old(members)[k])) && members == old(members)[..k] + old(members)[k + 1..]
                && forall m :: m in memberships <==> m in old(memberships) && m.member != id
    {
      var k := FindMember(members, workspace, id);
      if k == |members| { return Ok(None); }
      var member := members[k];
      OnlyOwnerExact(members, member);
      if ActiveOwner(member, workspace) && OwnerCount(members, workspace, id) == 0 { return Err(LastOwner); }
      members := members[..k] + members[k + 1..];
      memberships := NotOf(memberships, id);
      return Ok(Some(member));
    }

    method SetProjectPolicy(workspace: int, project: int, mode: Mode) returns (policy: ProjectPolicy)
      modifies this`policies
      ensures Now() == After(old(Now()), SetPolicy(workspace, project, mode))
      ensures policy == ProjectPolicy(workspace, project, mode) && policy in policies
      ensures PutAt(old(policies), policies, First(PolicyKeys(old(policies)), (workspace, project)), policy)
    {
      var k := First(PolicyKeys(policies), (workspace, project));
      policy := ProjectPolicy(workspace, project, mode);
      if k < |policies| {
        policies := policies[k := policy];
      } else {
        policies := policies + [policy];
      }
      assert policies[k] == policy;
    }

    method UpsertProjectMembership(workspace: int, project: int, member: int, role: ProjectRole)
      returns (res: Result<Membership, Error>)
      modifies this`memberships
      ensures Done(old(Now()), Now(), UpsertMembership(workspace, project, member, role), res)
      ensures res.Ok? ==> res.value == Membership(workspace, project, member, role) && res.value in memberships
      ensures res.Ok? <==> FindMember(members, workspace, member) < |members|
      ensures res.Ok? ==> PutAt(old(memberships), memberships,
                                First(MembershipKeys(old(memberships)), (workspace, project, member)), res.value)
    {
      if FindMember(members, workspace, member) == |members| { return Err(MemberNotFound); }
      var k := First(MembershipKeys(memberships), (workspace, project, member));
      var membership := Membership(workspace, project, member, role);
      if k < |memberships| {
        memberships := memberships[k := membership];
      } else {
        memberships := memberships + [membership];
      }
      assert memberships[k] == membership;
      return Ok(membership);
    }

    method RemoveProjectMembership(workspace: int, project: int, member: int) returns (removed: Option<Membership>)
      modifies this`memberships
      ensures Now() == After(old(Now()), RemoveMembership(workspace, project, member))
      ensures removed.Some? ==> removed.value in old(memberships)
      ensures var k := First(MembershipKeys(old(memberships)), (workspace, project, member));
              if k == |old(memberships)| then removed == None && memberships == old(memberships)
              else
                && removed == Some(old(memberships)[k])
                && memberships == old(memberships)[..k] + old(memberships)[k + 1..]
    {
      var k := First(MembershipKeys(memberships), (workspace, project, member));
      if k == |memberships| { return None; }
      removed := Some(memberships[k]);
      memberships := memberships[..k] + memberships[k + 1..];
    }
  }
}
