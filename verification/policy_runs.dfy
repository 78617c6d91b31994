/** Referential integrity of the configuration over every run. */
module PolicyRuns {
  import opened Wrappers
  import opened Lookup
  import opened Policy

  ghost predicate WorkspacesRefer(s: State) {
    forall i :: 0 <= i < |s.workspaces| ==> Available(s, s.workspaces[i].id, s.workspaces[i].settings.bundleIds)
  }

  ghost predicate ProjectsRefer(s: State) {
    forall i :: 0 <= i < |s.projects| ==> Available(s, s.projects[i].workspace, s.projects[i].settings.bundleIds)
  }

  ghost predicate ChannelsRefer(s: State) {
    forall i :: 0 <= i < |s.channels| ==> Available(s, s.channels[i].route.workspace, s.channels[i].settings.bundleIds)
  }

  /** Every bundle id named at any level exists in the catalogue of that workspace. */
  ghost predicate Refers(s: State) { WorkspacesRefer(s) && ProjectsRefer(s) && ChannelsRefer(s) }

  ghost predicate Keyed(s: State) {
    && Distinct(WorkspaceIds(s.workspaces)) && Distinct(ProjectKeys(s.projects))
    && Distinct(Routes(s.channels)) && Distinct(BundleKeys(s.bundles))
  }

  /** Bundles belong to configured workspaces, channels to configured projects. */
  ghost predicate Housed(s: State) {
    && s.workspaces != []
    && (forall i :: 0 <= i < |s.bundles| ==> s.bundles[i].workspace in WorkspaceIds(s.workspaces))
    && (forall i :: 0 <= i < |s.channels| ==>
          (s.channels[i].route.workspace, s.channels[i].route.project) in ProjectKeys(s.projects))
  }

  ghost predicate Inv(s: State) { Keyed(s) && Refers(s) && Housed(s) }

  /** References survive any change of the catalogue that keeps its keys. */
  lemma ReferencesSurvive(a: State, b: State)
    requires Refers(a)
    requires a.workspaces == b.workspaces && a.projects == b.projects && a.channels == b.channels
    requires forall key :: key in BundleKeys(a.bundles) ==> key in BundleKeys(b.bundles)
    ensures Refers(b)
  {
  }

  lemma PutBundleKeys(s: State, k: nat, b: Bundle)
    requires Keyed(s) && k == FindBundle(s, b.workspace, b.id)
    ensures Distinct(BundleKeys(PutBundle(s, k, b).bundles))
    ensures forall key :: key in BundleKeys(PutBundle(s, k, b).bundles) <==>
                          key in BundleKeys(s.bundles) || key == (b.workspace, b.id)
  {
    var before, after := BundleKeys(s.bundles), BundleKeys(PutBundle(s, k, b).bundles);
    if k < |before| {
      assert after == before;
    } else {
      assert after == before + [(b.workspace, b.id)];
    }
  }

  lemma PutBundleKeeps(s: State, k: nat, b: Bundle)
    requires Inv(s) && k == FindBundle(s, b.workspace, b.id) && b.workspace in WorkspaceIds(s.workspaces)
    ensures Inv(PutBundle(s, k, b))
  {
    PutBundleKeys(s, k, b);
    ReferencesSurvive(s, PutBundle(s, k, b));
  }

  lemma RemoveBundleKeeps(s: State, workspace: int, id: int)
    requires Inv(s) && FindBundle(s, workspace, id) < |s.bundles| && !Referenced(s, workspace, id)
    ensures Inv(s.(bundles := Without(s.bundles, FindBundle(s, workspace, id))))
  {
    var k := FindBundle(s, workspace, id);
    var next := s.(bundles := Without(s.bundles, k));
    RemovedKey(BundleKeys(s.bundles), k);
    assert BundleKeys(next.bundles) == Without(BundleKeys(s.bundles), k);
    forall i | 0 <= i < |s.workspaces|
      ensures Available(next, s.workspaces[i].id, s.workspaces[i].settings.bundleIds)
    {
      StillAvailable(s, next, workspace, id, s.workspaces[i].id, s.workspaces[i].settings.bundleIds);
    }
    forall i | 0 <= i < |s.projects|
      ensures Available(next, s.projects[i].workspace, s.projects[i].settings.bundleIds)
    {
      StillAvailable(s, next, workspace, id, s.projects[i].workspace, s.projects[i].settings.bundleIds);
    }
    forall i | 0 <= i < |s.channels|
      ensures Available(next, s.channels[i].route.workspace, s.channels[i].settings.bundleIds)
    {
      StillAvailable(s, next, workspace, id, s.channels[i].route.workspace, s.channels[i].settings.bundleIds);
    }
  }

  lemma StillAvailable(s: State, next: State, workspace: int, id: int, w: int, ids: seq<int>)
    requires Available(s, w, ids) && !(w == workspace && id in ids)
    requires forall key :: key in BundleKeys(s.bundles) && key != (workspace, id) ==> key in BundleKeys(next.bundles)
    ensures Available(next, w, ids)
  {
  }

  /** The guard of a removal is exact: it refuses exactly when a reference would dangle. */
  lemma RemovalGuardExact(s: State, workspace: int, id: int)
    requires Inv(s) && FindBundle(s, workspace, id) < |s.bundles|
    ensures !Referenced(s, workspace, id) <==>
            Refers(s.(bundles := Without(s.bundles, FindBundle(s, workspace, id))))
  {
    var k := FindBundle(s, workspace, id);
    var next := s.(bundles := Without(s.bundles, k));
    RemovedKey(BundleKeys(s.bundles), k);
    assert BundleKeys(next.bundles) == Without(BundleKeys(s.bundles), k);
    assert BundleKeys(s.bundles)[k] == (workspace, id);
    assert forall ids: seq<int> :: Available(next, workspace, ids) ==> id !in ids;
    if !Referenced(s, workspace, id) {
      RemoveBundleKeeps(s, workspace, id);
    }
  }

  lemma PutWorkspaceKeeps(s: State, policy: WorkspacePolicy)
    requires Inv(s) && Available(s, policy.id, policy.settings.bundleIds)
    ensures var k := First(WorkspaceIds(s.workspaces), policy.id);
            Inv(s.(workspaces := if k < |s.workspaces| then s.workspaces[k := policy] else s.workspaces + [policy]))
  {
    var before := WorkspaceIds(s.workspaces);
    var k := First(before, policy.id);
    var next := s.(workspaces := if k < |s.workspaces| then s.workspaces[k := policy] else s.workspaces + [policy]);
    var after := WorkspaceIds(next.workspaces);
    if k < |before| {
      assert after == before;
    } else {
      assert after == before + [policy.id];
    }
  }

  lemma PutProjectKeeps(s: State, policy: ProjectPolicy)
    requires Inv(s) && Available(s, policy.workspace, policy.settings.bundleIds)
    ensures var k := FindProject(s, policy.workspace, policy.project);
            Inv(s.(projects := if k < |s.projects| then s.projects[k := policy] else s.projects + [policy]))
  {
    var before := ProjectKeys(s.projects);
    var k := FindProject(s, policy.workspace, policy.project);
    var next := s.(projects := if k < |s.projects| then s.projects[k := policy] else s.projects + [policy]);
    var after := ProjectKeys(next.projects);
    if k < |before| {
      assert after == before;
    } else {
      assert after == before + [(policy.workspace, policy.project)];
    }
  }

  lemma PutChannelKeeps(s: State, policy: ChannelPolicy)
    requires Inv(s) && Available(s, policy.route.workspace, policy.settings.bundleIds)
    requires (policy.route.workspace, policy.route.project) in ProjectKeys(s.projects)
    ensures var k := FindChannel(s, policy.route);
            Inv(s.(channels := if k < |s.channels| then s.channels[k := policy] else s.channels + [policy]))
  {
    var before := Routes(s.channels);
    var k := FindChannel(s, policy.route);
    var next := s.(channels := if k < |s.channels| then s.channels[k := policy] else s.channels + [policy]);
    var after := Routes(next.channels);
    if k < |before| {
      assert after == before;
    } else {
      assert after == before + [policy.route];
    }
  }

  lemma RemoveChannelKeeps(s: State, k: nat)
    requires Inv(s) && k < |s.channels|
    ensures Inv(s.(channels := Without(s.channels, k)))
  {
    var next := s.(channels := Without(s.channels, k));
    RemovedKey(Routes(s.channels), k);
    assert Routes(next.channels) == Without(Routes(s.channels), k);
    assert forall i :: 0 <= i < |next.channels| ==> next.channels[i] == s.channels[if i < k then i else i + 1];
  }

  lemma AfterKeepsInv(s: State, call: Call)
    requires Inv(s)
    ensures Inv(After(s, call))
  {
    var r := Step(s, call);
    if r.Ok? {
      match call
      case UpsertBundle(b) =>
        var k := FindBundle(s, b.workspace, b.id.value);
        if k < |s.bundles| {
          assert r.value == PutBundle(s, k, r.value.bundles[k]);
          PutBundleKeeps(s, k, r.value.bundles[k]);
        } else {
          PutBundleKeeps(s, k, r.value.bundles[k]);
        }
      case SetEnabled(w, id, enabled, expected) =>
        var k := FindBundle(s, w, id.value);
        assert r.value == PutBundle(s, k, r.value.bundles[k]);
        PutBundleKeeps(s, k, r.value.bundles[k]);
      case RemoveBundle(w, id, expected) =>
        if FindBundle(s, w, id.value) < |s.bundles| {
          RemoveBundleKeeps(s, w, id.value);
        }
      case UpsertWorkspace(w, q) =>
        var kept := WorkspaceSettings(s, w);
        PutWorkspaceKeeps(s, WorkspacePolicy(w, Chosen(q, kept, kept.net)));
      case UpsertProject(w, p, q) =>
        var k := FindProject(s, w, p);
        if k < |s.projects| {
          PutProjectKeeps(s, r.value.projects[k]);
        } else {
          PutProjectKeeps(s, r.value.projects[k]);
        }
      case UpsertChannel(route, q) =>
        ChannelStepKeeps(s, route, q);
      case RemoveChannel(route) =>
        var k := FindChannel(s, route);
        if k < |s.channels| {
          RemoveChannelKeeps(s, k);
        }
    }
  }

  lemma ChannelStepKeeps(s: State, route: Route, q: Request)
    requires Inv(s) && UpsertChannelStep(s, route, q).Ok?
    ensures Inv(UpsertChannelStep(s, route, q).value)
  {
    var next := UpsertChannelStep(s, route, q).value;
    var k := FindChannel(s, route);
    var p := FindProject(s, route.workspace, route.project);
    assert ProjectKeys(s.projects)[p] == (route.workspace, route.project);
    PutChannelKeeps(s, next.channels[k]);
  }

  /** Referential integrity, for every interleaving of the seven operations. */
  lemma {:induction false} ReachableInv(workspace: int, project: int, calls: seq<Call>)
    ensures Inv(StoreRun(workspace, project, calls))
  {
    if calls != [] {
      ReachableInv(workspace, project, calls[..|calls| - 1]);
      AfterKeepsInv(StoreRun(workspace, project, calls[..|calls| - 1]), calls[|calls| - 1]);
    }
  }
}
