/** What every run of the access store keeps: owners, identities and memberships. */
module AccessRuns {
  import opened Wrappers
  import opened Lookup
  import opened Access

  /** Identifiers drawn for new members are fresh. */
  predicate WellFormed(s: State, call: Call) {
    call.UpsertMember? && call.request.id.None? ==> call.request.newId !in MemberIds(s.members)
  }

  function StoreRun(calls: seq<Call>): State {
    if calls == [] then EMPTY else After(StoreRun(calls[..|calls| - 1]), calls[|calls| - 1])
  }

  predicate Legal(calls: seq<Call>) {
    calls == [] || (Legal(calls[..|calls| - 1]) && WellFormed(StoreRun(calls[..|calls| - 1]), calls[|calls| - 1]))
  }

  // ------------------------------------------------------------- invariants

  predicate InCommon(m: Member, identity: Identity, other: Member) {
    identity in m.identities && identity in other.identities
  }

  /** Inside one workspace no identity belongs to two members. */
  ghost predicate IdentitiesApart(s: seq<Member>) {
    forall i, j, identity :: 0 <= i < |s| && 0 <= j < |s| && i != j && s[i].workspace == s[j].workspace ==>
      !InCommon(s[i], identity, s[j])
  }

  /** Every membership is of a member of its own workspace. */
  ghost predicate Anchored(s: State) {
    forall k :: 0 <= k < |s.memberships| ==>
      (s.memberships[k].workspace, s.memberships[k].member) in MemberKeys(s.members)
  }

  ghost predicate Inv(s: State) {
    && Distinct(MemberIds(s.members)) && IdentitiesApart(s.members) && Anchored(s)
    && Distinct(MembershipKeys(s.memberships)) && Distinct(PolicyKeys(s.policies))
  }

  lemma NotShared(m: Member, other: Member, identity: Identity)
    requires InCommon(m, identity, other)
    ensures Shares(m, other.identities)
  {
  }

  /** Putting a member whose identities are free keeps identities apart. */
  lemma PutKeepsApart(s: State, k: nat, m: Member)
    requires Inv(s) && k <= |s.members|
    requires if k < |s.members| then s.members[k].id == m.id else m.id !in MemberIds(s.members)
    requires !Taken(s.members, m.workspace, m.id, m.identities)
    ensures IdentitiesApart(PutMember(s, k, m).members)
  {
    var before, now := s.members, PutMember(s, k, m).members;
    forall i, j, identity | 0 <= i < |now| && 0 <= j < |now| && i != j && now[i].workspace == now[j].workspace
      ensures !InCommon(now[i], identity, now[j])
    {
      if i != k && j != k {
        assert now[i] == before[i] && now[j] == before[j];
      } else {
        OthersKeepTheirId(s, k, m, if j == k then i else j);
        if InCommon(now[i], identity, now[j]) {
          NotShared(if j == k then now[i] else now[j], m, identity);
        }
      }
    }
  }

  lemma OthersKeepTheirId(s: State, k: nat, m: Member, i: nat)
    requires Distinct(MemberIds(s.members)) && k <= |s.members| && i != k
    requires if k < |s.members| then s.members[k].id == m.id else m.id !in MemberIds(s.members)
    requires i < |PutMember(s, k, m).members|
    ensures i < |s.members| && s.members[i] == PutMember(s, k, m).members[i] && s.members[i].id != m.id
  {
    var ids := MemberIds(s.members);
    assert ids[i] == s.members[i].id;
    if k < |s.members| {
      assert ids[k] == m.id;
    }
  }

  lemma PutKeepsInv(s: State, k: nat, m: Member)
    requires Inv(s) && k <= |s.members|
    requires if k < |s.members| then s.members[k].id == m.id && s.members[k].workspace == m.workspace
             else m.id !in MemberIds(s.members)
    requires !Taken(s.members, m.workspace, m.id, m.identities)
    ensures Inv(PutMember(s, k, m))
  {
    PutKeepsApart(s, k, m);
    var now := PutMember(s, k, m);
    if k < |s.members| {
      assert MemberIds(now.members) == MemberIds(s.members);
      assert MemberKeys(now.members) == MemberKeys(s.members);
    } else {
      assert MemberIds(now.members) == MemberIds(s.members) + [m.id];
      assert MemberKeys(now.members) == MemberKeys(s.members) + [(m.workspace, m.id)];
    }
  }

  /** Dropping a member drops exactly its memberships, wherever they are. */
  lemma RemoveKeepsInv(s: State, k: nat)
    requires Inv(s) && k < |s.members|
    ensures Inv(State(Without(s.members, k), NotOf(s.memberships, s.members[k].id), s.policies))
  {
    var id := s.members[k].id;
    var now := State(Without(s.members, k), NotOf(s.memberships, id), s.policies);
    RemovedKey(MemberIds(s.members), k);
    assert MemberIds(now.members) == Without(MemberIds(s.members), k);
    WithoutApart(s.members, k);
    NotOfDistinct(s.memberships, id);
    forall i | 0 <= i < |now.memberships|
      ensures (now.memberships[i].workspace, now.memberships[i].member) in MemberKeys(now.members)
    {
      var m := now.memberships[i];
      assert m in s.memberships && m.member != id;
      KeptKey(s.members, k, m.workspace, m.member);
    }
  }

  lemma WithoutApart(s: seq<Member>, k: nat)
    requires IdentitiesApart(s) && k < |s|
    ensures IdentitiesApart(Without(s, k))
  {
  }

  lemma KeptKey(s: seq<Member>, k: nat, workspace: int, id: int)
    requires k < |s| && (workspace, id) in MemberKeys(s) && id != s[k].id
    ensures (workspace, id) in MemberKeys(Without(s, k))
  {
    var i := First(MemberKeys(s), (workspace, id));
    var j := if i < k then i else i - 1;
    assert Without(s, k)[j] == s[i];
    assert MemberKeys(Without(s, k))[j] == (workspace, id);
  }

  lemma {:induction false} NotOfDistinct(s: seq<Membership>, member: int)
    requires Distinct(MembershipKeys(s))
    ensures Distinct(MembershipKeys(NotOf(s, member)))
  {
    if s != [] {
      var n := |s| - 1;
      var keys := MembershipKeys(s);
      assert MembershipKeys(s[..n]) == keys[..n];
      NotOfDistinct(s[..n], member);
      var less := NotOf(s[..n], member);
      forall i | 0 <= i < |less|
        ensures MembershipKeys(less)[i] != keys[n]
      {
        assert less[i] in s[..n];
        var j :| 0 <= j < n && s[j] == less[i];
        assert keys[j] == MembershipKeys(less)[i];
      }
      assert less + [] == less;
      assert MembershipKeys(less + [s[n]]) == MembershipKeys(less) + [keys[n]];
    }
  }

  lemma PutMembershipDistinct(memberships: seq<Membership>, m: Membership)
    requires Distinct(MembershipKeys(memberships))
    ensures var k := First(MembershipKeys(memberships), (m.workspace, m.project, m.member));
            Distinct(MembershipKeys(if k < |memberships| then memberships[k := m] else memberships + [m]))
  {
    var keys := MembershipKeys(memberships);
    var k := First(keys, (m.workspace, m.project, m.member));
    if k < |memberships| {
      assert MembershipKeys(memberships[k := m]) == keys;
    } else {
      assert MembershipKeys(memberships + [m]) == keys + [(m.workspace, m.project, m.member)];
    }
  }

  lemma PutMembershipAnchored(s: State, m: Membership)
    requires Anchored(s) && UpsertMembershipStep(s, m).Ok?
    ensures Anchored(UpsertMembershipStep(s, m).value)
  {
    var now := UpsertMembershipStep(s, m).value;
    var j := FindMember(s.members, m.workspace, m.member);
    assert MemberKeys(s.members)[j] == (m.workspace, m.member);
    forall k | 0 <= k < |now.memberships|
      ensures (now.memberships[k].workspace, now.memberships[k].member) in MemberKeys(s.members)
    {
      assert now.memberships[k] == m || (k < |s.memberships| && now.memberships[k] == s.memberships[k]);
    }
  }

  lemma MembershipKeepsInv(s: State, m: Membership)
    requires Inv(s)
    ensures Inv(After(s, UpsertMembership(m.workspace, m.project, m.member, m.role)))
  {
    if UpsertMembershipStep(s, m).Ok? {
      PutMembershipDistinct(s.memberships, m);
      PutMembershipAnchored(s, m);
    }
  }

  lemma RemovalKeepsInv(s: State, k: nat)
    requires Inv(s) && k < |s.memberships|
    ensures Inv(s.(memberships := Without(s.memberships, k)))
  {
    var now := s.(memberships := Without(s.memberships, k));
    RemovedKey(MembershipKeys(s.memberships), k);
    assert MembershipKeys(now.memberships) == Without(MembershipKeys(s.memberships), k);
    assert forall i :: 0 <= i < |now.memberships| ==> now.memberships[i] == s.memberships[if i < k then i else i + 1];
  }

  lemma PolicyKeepsInv(s: State, p: ProjectPolicy)
    requires Inv(s)
    ensures Inv(SetPolicyStep(s, p))
  {
    var k := First(PolicyKeys(s.policies), (p.workspace, p.project));
    var now := SetPolicyStep(s, p);
    if k < |s.policies| {
      assert PolicyKeys(now.policies) == PolicyKeys(s.policies);
    } else {
      assert PolicyKeys(now.policies) == PolicyKeys(s.policies) + [(p.workspace, p.project)];
    }
  }

  lemma AfterKeepsInv(s: State, call: Call)
    requires Inv(s) && WellFormed(s, call)
    ensures Inv(After(s, call))
  {
    match call
    case UpsertMember(r) =>
      if UpsertMemberStep(s, r).Ok? {
        var (k, m) := Drafted(s, r).value;
        PutKeepsInv(s, k, m);
      }
    case RemoveMember(w, id) =>
      var k := FindMember(s.members, w, id);
      if k < |s.members| {
        RemoveKeepsInv(s, k);
      }
    case SetPolicy(w, p, mode) => PolicyKeepsInv(s, ProjectPolicy(w, p, mode));
    case UpsertMembership(w, p, m, role) => MembershipKeepsInv(s, Membership(w, p, m, role));
    case RemoveMembership(w, p, m) =>
      var k := First(MembershipKeys(s.memberships), (w, p, m));
      if k < |s.memberships| {
        RemovalKeepsInv(s, k);
      }
  }

  /** Over every run: identities apart, memberships unique and of existing members of their workspace. */
  lemma {:induction false} ReachableInv(calls: seq<Call>)
    requires Legal(calls)
    ensures Inv(StoreRun(calls))
  {
    if calls != [] {
      ReachableInv(calls[..|calls| - 1]);
      AfterKeepsInv(StoreRun(calls[..|calls| - 1]), calls[|calls| - 1]);
    }
  }

  // ----------------------------------------------------------------- owners

  ghost predicate Owned(s: seq<Member>, workspace: int) { exists i :: 0 <= i < |s| && ActiveOwner(s[i], workspace) }

  /** The removal guard is exact: it refuses exactly when the workspace would lose its only active owner. */
  lemma RemovalGuardExact(s: State, workspace: int, id: int)
    requires Inv(s) && FindMember(s.members, workspace, id) < |s.members|
    ensures RemoveMemberStep(s, workspace, id) == Err(LastOwner) <==>
            Owned(s.members, workspace) && !Owned(Without(s.members, FindMember(s.members, workspace, id)), workspace)
  {
    var k := FindMember(s.members, workspace, id);
    var less := Without(s.members, k);
    OthersOwn(s.members, k, workspace);
    if Owned(s.members, workspace) {
      var i :| 0 <= i < |s.members| && ActiveOwner(s.members[i], workspace);
      if i != k {
        assert less[if i < k then i else i - 1] == s.members[i];
      }
    }
  }

  /** Without a member, the owners are the others. */
  lemma OthersOwn(s: seq<Member>, k: nat, workspace: int)
    requires Distinct(MemberIds(s)) && k < |s|
    ensures OwnerCount(s, workspace, s[k].id) > 0 <==> Owned(Without(s, k), workspace)
  {
    var less, ids := Without(s, k), MemberIds(s);
    if OwnerCount(s, workspace, s[k].id) > 0 {
      var i :| 0 <= i < |s| && ActiveOwner(s[i], workspace) && s[i].id != s[k].id;
      assert less[if i < k then i else i - 1] == s[i];
    }
    if Owned(less, workspace) {
      var i :| 0 <= i < |less| && ActiveOwner(less[i], workspace);
      var j := if i < k then i else i + 1;
      assert less[i] == s[j] && ids[j] == s[j].id && ids[k] == s[k].id;
    }
  }

  lemma PutKeepsOwned(s: State, k: nat, m: Member, workspace: int)
    requires Inv(s) && k <= |s.members| && Owned(s.members, workspace)
    requires k < |s.members| ==> s.members[k].id == m.id && s.members[k].workspace == m.workspace
    requires k < |s.members| ==> !LosesLastOwner(s.members, s.members[k], m.role, m.status)
    ensures Owned(PutMember(s, k, m).members, workspace)
  {
    var now := PutMember(s, k, m).members;
    var i :| 0 <= i < |s.members| && ActiveOwner(s.members[i], workspace);
    if i != k {
      assert now[i] == s.members[i];
    } else if m.role.Owner? && m.status.Active? {
      assert ActiveOwner(now[k], workspace);
    } else {
      var j :| 0 <= j < |s.members| && ActiveOwner(s.members[j], workspace) && s.members[j].id != m.id;
      assert now[j] == s.members[j];
    }
  }

  lemma RemovalKeepsOwned(s: State, w: int, id: int, workspace: int)
    requires Inv(s) && Owned(s.members, workspace) && RemoveMemberStep(s, w, id).Ok?
    ensures Owned(RemoveMemberStep(s, w, id).value.members, workspace)
  {
    var k := FindMember(s.members, w, id);
    if k == |s.members| {
    } else if w == workspace {
      RemovalGuardExact(s, w, id);
    } else {
      var i :| 0 <= i < |s.members| && ActiveOwner(s.members[i], workspace);
      assert Without(s.members, k)[if i < k then i else i - 1] == s.members[i];
    }
  }

  lemma AfterKeepsOwned(s: State, call: Call, workspace: int)
    requires Inv(s) && Owned(s.members, workspace)
    ensures Owned(After(s, call).members, workspace)
  {
    match call
    case UpsertMember(r) =>
      if UpsertMemberStep(s, r).Ok? {
        var (k, m) := Drafted(s, r).value;
        PutKeepsOwned(s, k, m, workspace);
      }
    case RemoveMember(w, id) =>
      if RemoveMemberStep(s, w, id).Ok? {
        RemovalKeepsOwned(s, w, id, workspace);
      }
    case SetPolicy(_, _, _) =>
    case UpsertMembership(_, _, _, _) =>
    case RemoveMembership(_, _, _) =>
  }

  /** A workspace that has an active owner at some point of a run has one ever after. */
  lemma {:induction false} OwnerStays(calls: seq<Call>, n: nat, workspace: int)
    requires Legal(calls) && n <= |calls| && Owned(StoreRun(calls[..n]).members, workspace)
    ensures Owned(StoreRun(calls).members, workspace)
  {
    if n == |calls| {
      assert calls[..n] == calls;
    } else {
      var before := calls[..|calls| - 1];
      assert before[..n] == calls[..n];
      OwnerStays(before, n, workspace);
      ReachableInv(before);
      AfterKeepsOwned(StoreRun(before), calls[|calls| - 1], workspace);
    }
  }

  /**
    The first member must be an owner, yet need not be active: creating it leaves
    an active owner exactly when the request does not suspend it.
   */
  lemma FirstMemberOwns(s: State, r: MemberRequest)
    requires r.id.None? && !HasMembers(s.members, r.workspace) && UpsertMemberStep(s, r).Ok?
    ensures Owned(UpsertMemberStep(s, r).value.members, r.workspace) <==> r.status != Some(Suspended)
  {
    var k := |s.members|;
    var now := UpsertMemberStep(s, r).value.members;
    assert now[k] == Drafted(s, r).value.1;
    if r.status == Some(Suspended) {
      assert forall i :: 0 <= i < k ==> now[i] == s.members[i] && now[i].workspace != r.workspace;
    } else {
      assert ActiveOwner(now[k], r.workspace);
    }
  }
}
