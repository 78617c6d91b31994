/** Capability bundles and the workspace, project and channel policies that refer to them. */
module Policy {
  import opened Wrappers
  import opened Lookup

  datatype Mode = DenyByDefault | Restricted | AllowAll

  datatype Net = Net(mode: Mode, hosts: seq<int>)

  datatype Grant = Grant(id: int, value: int)

  datatype Bundle = Bundle(workspace: int, id: int, enabled: bool, revision: nat, grants: seq<Grant>, net: Net)

  /** What every level of policy carries. */
  datatype Settings = Settings(bundleIds: seq<int>, grants: seq<Grant>, net: Net)

  datatype Capability = Inherit | Extend | Custom

  datatype WorkspacePolicy = WorkspacePolicy(id: int, settings: Settings)

  datatype ProjectPolicy = ProjectPolicy(workspace: int, project: int, capability: Capability, settings: Settings)

  datatype Route = Route(workspace: int, project: int, platform: int, channel: int)

  datatype ChannelPolicy = ChannelPolicy(route: Route, capability: Capability, settings: Settings)

  datatype State = State(
    workspaces: seq<WorkspacePolicy>, projects: seq<ProjectPolicy>, channels: seq<ChannelPolicy>, bundles: seq<Bundle>)

  const CLOSED := Net(DenyByDefault, [])
  const BLANK := Settings([], [], CLOSED)

  function WorkspaceIds(s: seq<WorkspacePolicy>): (keys: seq<int>)
    ensures |keys| == |s|
  {
    seq(|s|, i requires 0 <= i < |s| => s[i].id)
  }

  function ProjectKeys(s: seq<ProjectPolicy>): (keys: seq<(int, int)>)
    ensures |keys| == |s|
  {
    seq(|s|, i requires 0 <= i < |s| => (s[i].workspace, s[i].project))
  }

  function Routes(s: seq<ChannelPolicy>): (keys: seq<Route>)
    ensures |keys| == |s|
  {
    seq(|s|, i requires 0 <= i < |s| => s[i].route)
  }

  function BundleKeys(s: seq<Bundle>): (keys: seq<(int, int)>)
    ensures |keys| == |s|
  {
    seq(|s|, i requires 0 <= i < |s| => (s[i].workspace, s[i].id))
  }

  function FindBundle(s: State, workspace: int, id: int): (k: nat)
    ensures k <= |s.bundles|
    ensures k < |s.bundles| ==> s.bundles[k].workspace == workspace && s.bundles[k].id == id
    ensures forall i :: 0 <= i < k ==> s.bundles[i].workspace != workspace || s.bundles[i].id != id
  {
    assert forall i :: 0 <= i < |s.bundles| ==> BundleKeys(s.bundles)[i] == (s.bundles[i].workspace, s.bundles[i].id);
    First(BundleKeys(s.bundles), (workspace, id))
  }

  function FindProject(s: State, workspace: int, project: int): (k: nat)
    ensures k <= |s.projects|
    ensures k < |s.projects| ==> s.projects[k].workspace == workspace && s.projects[k].project == project
    ensures forall i :: 0 <= i < k ==> s.projects[i].workspace != workspace || s.projects[i].project != project
  {
    assert forall i :: 0 <= i < |s.projects| ==>
      ProjectKeys(s.projects)[i] == (s.projects[i].workspace, s.projects[i].project);
    First(ProjectKeys(s.projects), (workspace, project))
  }

  function FindChannel(s: State, route: Route): (k: nat)
    ensures k <= |s.channels|
    ensures k < |s.channels| ==> s.channels[k].route == route
    ensures forall i :: 0 <= i < k ==> s.channels[i].route != route
  {
    assert forall i :: 0 <= i < |s.channels| ==> Routes(s.channels)[i] == s.channels[i].route;
    First(Routes(s.channels), route)
  }

  /** The workspace's own settings, else those of the first workspace, else the built-in ones. */
  function WorkspaceSettings(s: State, workspace: int): (r: Settings)
    ensures (exists w :: w in s.workspaces && w.id == workspace && r == w.settings)
            || (forall w :: w in s.workspaces ==> w.id != workspace)
    ensures (forall w :: w in s.workspaces ==> w.id != workspace) ==>
              if s.workspaces != [] then r == s.workspaces[0].settings
              else r == Settings([], [], Net(DenyByDefault, []))
  {
    assert forall i :: 0 <= i < |s.workspaces| ==> WorkspaceIds(s.workspaces)[i] == s.workspaces[i].id;
    var k := First(WorkspaceIds(s.workspaces), workspace);
    if k < |s.workspaces| then s.workspaces[k].settings
    else if s.workspaces != [] then s.workspaces[0].settings
    else BLANK
  }

  // ---------------------------------------------------------------- requests

  /** An id as sent: None when, trimmed and in lower case, it is not a legal id. */
  type RawId = Option<int>

  function Legal(raw: seq<RawId>): (ids: seq<int>)
    ensures forall x :: x in ids <==> Some(x) in raw
  {
    if raw == [] then []
    else
      var n := |raw| - 1;
      assert raw == raw[..n] + [raw[n]];
      Legal(raw[..n]) + if raw[n].Some? then [raw[n].value] else []
  }

  datatype NetRequest = NetRequest(mode: Option<Mode>, hosts: Option<seq<int>>)

  datatype Request = Request(
    bundleIds: Option<seq<RawId>>, grants: Option<seq<Grant>>, net: Option<NetRequest>, capability: Option<Capability>)

  /** `named`: whether the cleaned name has 1 to 120 characters. */
  datatype BundleRequest = BundleRequest(
    workspace: int, id: RawId, named: bool, enabled: Option<bool>, grants: Option<seq<Grant>>, net: Option<NetRequest>,
    expected: Option<nat>)

  function Or<T>(requested: Option<T>, kept: T): T { if requested.Some? then requested.value else kept }

  function ChosenIds(requested: Option<seq<RawId>>, kept: seq<int>): (ids: seq<int>) {
    Dedupe(if requested.Some? then Legal(requested.value) else kept)
  }

  function ChosenNet(requested: Option<NetRequest>, base: Net): Net {
    if requested.None? then base
    else Net(Or(requested.value.mode, base.mode), Or(requested.value.hosts, base.hosts))
  }

  function Chosen(r: Request, kept: Settings, base: Net): Settings {
    Settings(ChosenIds(r.bundleIds, kept.bundleIds), Or(r.grants, kept.grants), ChosenNet(r.net, base))
  }

  datatype Error =
    | InvalidId | NameRequired | WorkspaceNotFound | BundleNotFound | RevisionConflict(current: nat) | InUse
    | ProjectNotFound

  predicate Available(s: State, workspace: int, ids: seq<int>) {
    forall i :: 0 <= i < |ids| ==> (workspace, ids[i]) in BundleKeys(s.bundles)
  }

  predicate Unexpected(expected: Option<nat>, revision: nat) { expected.Some? && expected.value != revision }

  // --------------------------------------------- what a request asks for, by its fields

  /** What is sent is stored, what is not is kept. */
  predicate NetHonours(r: Option<NetRequest>, kept: Net, now: Net) {
    match r
    case None => now == kept
    case Some(NetRequest(mode, hosts)) =>
      && (mode.Some? ==> now.mode == mode.value) && (mode.None? ==> now.mode == kept.mode)
      && (hosts.Some? ==> now.hosts == hosts.value) && (hosts.None? ==> now.hosts == kept.hosts)
  }

  /** The bundle ids a request leaves: the legal ones it sends, or those kept. */
  predicate AsksFor(r: Request, kept: Settings, id: int) {
    if r.bundleIds.Some? then Some(id) in r.bundleIds.value else id in kept.bundleIds
  }

  ghost predicate Honours(r: Request, kept: Settings, now: Settings) {
    && Distinct(now.bundleIds) && (forall id :: id in now.bundleIds <==> AsksFor(r, kept, id))
    && (r.grants.Some? ==> now.grants == r.grants.value) && (r.grants.None? ==> now.grants == kept.grants)
    && NetHonours(r.net, kept.net, now.net)
  }

  /** The request leaves an id that the workspace's catalogue does not have. */
  ghost predicate Misses(s: State, workspace: int, r: Request, kept: Settings) {
    exists id :: AsksFor(r, kept, id) && forall b :: b in s.bundles ==> b.workspace != workspace || b.id != id
  }

  lemma ChosenHonours(r: Request, kept: Settings)
    ensures Honours(r, kept, Chosen(r, kept, kept.net))
  {
  }

  lemma AvailableExact(s: State, workspace: int, r: Request, kept: Settings)
    ensures Available(s, workspace, Chosen(r, kept, kept.net).bundleIds) <==> !Misses(s, workspace, r, kept)
  {
    var ids := Chosen(r, kept, kept.net).bundleIds;
    ChosenHonours(r, kept);
    forall id
      ensures (workspace, id) in BundleKeys(s.bundles) <==>
              exists b :: b in s.bundles && b.workspace == workspace && b.id == id
    {
      InCatalogue(s.bundles, workspace, id);
    }
    if Misses(s, workspace, r, kept) {
      var id :| AsksFor(r, kept, id) && forall b :: b in s.bundles ==> b.workspace != workspace || b.id != id;
      assert id in ids;
      var i :| 0 <= i < |ids| && ids[i] == id;
    }
    forall i | 0 <= i < |ids|
      ensures AsksFor(r, kept, ids[i])
    {
      assert ids[i] in ids;
    }
  }

  lemma InCatalogue(bundles: seq<Bundle>, workspace: int, id: int)
    ensures (workspace, id) in BundleKeys(bundles) <==>
            exists b :: b in bundles && b.workspace == workspace && b.id == id
  {
    if b :| b in bundles && b.workspace == workspace && b.id == id {
      var i :| 0 <= i < |bundles| && bundles[i] == b;
      assert BundleKeys(bundles)[i] == (workspace, id);
    }
    if (workspace, id) in BundleKeys(bundles) {
      var i :| 0 <= i < |bundles| && BundleKeys(bundles)[i] == (workspace, id);
      assert bundles[i] in bundles;
    }
  }

  lemma Configured(workspaces: seq<WorkspacePolicy>, id: int)
    ensures id in WorkspaceIds(workspaces) <==> exists w :: w in workspaces && w.id == id
  {
    if w :| w in workspaces && w.id == id {
      var i :| 0 <= i < |workspaces| && workspaces[i] == w;
      assert WorkspaceIds(workspaces)[i] == id;
    }
    if id in WorkspaceIds(workspaces) {
      var i :| 0 <= i < |workspaces| && WorkspaceIds(workspaces)[i] == id;
      assert workspaces[i] in workspaces;
    }
  }

  // ----------------------------------------------------------- specification

  datatype Call =
    | UpsertBundle(bundle: BundleRequest)
    | SetEnabled(workspace: int, id: RawId, enabled: bool, expected: Option<nat>)
    | RemoveBundle(workspace: int, id: RawId, expected: Option<nat>)
    | UpsertWorkspace(workspace: int, request: Request)
    | UpsertProject(workspace: int, project: int, request: Request)
    | UpsertChannel(route: Route, request: Request)
    | RemoveChannel(route: Route)

  function PutBundle(s: State, k: nat, b: Bundle): State
    requires k <= |s.bundles|
  {
    s.(bundles := if k < |s.bundles| then s.bundles[k := b] else s.bundles + [b])
  }

  function UpsertBundleStep(s: State, r: BundleRequest): Result<State, Error> {
    if r.id.None? then Err(InvalidId)
    else if !r.named then Err(NameRequired)
    else if r.workspace !in WorkspaceIds(s.workspaces) then Err(WorkspaceNotFound)
    else
      var k := FindBundle(s, r.workspace, r.id.value);
      var kept := if k < |s.bundles| then s.bundles[k] else Bundle(r.workspace, r.id.value, true, 0, [], CLOSED);
      if Unexpected(r.expected, kept.revision) then Err(RevisionConflict(kept.revision))
      else Ok(PutBundle(s, k, Bundle(r.workspace, r.id.value, Or(r.enabled, kept.enabled), kept.revision + 1,
                                     Or(r.grants, kept.grants), ChosenNet(r.net, kept.net))))
  }

  function SetEnabledStep(s: State, workspace: int, id: RawId, enabled: bool, expected: Option<nat>)
    : Result<State, Error>
  {
    if id.None? then Err(InvalidId)
    else
      var k := FindBundle(s, workspace, id.value);
      if k == |s.bundles| then Err(BundleNotFound)
      else if Unexpected(expected, s.bundles[k].revision) then Err(RevisionConflict(s.bundles[k].revision))
      else Ok(PutBundle(s, k, s.bundles[k].(enabled := enabled, revision := s.bundles[k].revision + 1)))
  }

  /** Any level of the workspace's policies names the bundle, whatever its capability mode. */
  predicate Referenced(s: State, workspace: int, id: int) {
    || (exists i :: 0 <= i < |s.workspaces|
                    && s.workspaces[i].id == workspace && id in s.workspaces[i].settings.bundleIds)
    || (exists i :: 0 <= i < |s.projects|
                    && s.projects[i].workspace == workspace && id in s.projects[i].settings.bundleIds)
    || (exists i :: 0 <= i < |s.channels| && s.channels[i].route.workspace == workspace
                    && id in s.channels[i].settings.bundleIds)
  }

  function RemoveBundleStep(s: State, workspace: int, id: RawId, expected: Option<nat>): Result<State, Error> {
    if id.None? then Err(InvalidId)
    else
      var k := FindBundle(s, workspace, id.value);
      if k == |s.bundles| then Ok(s)
      else if Unexpected(expected, s.bundles[k].revision) then Err(RevisionConflict(s.bundles[k].revision))
      else if Referenced(s, workspace, id.value) then Err(InUse)
      else Ok(s.(bundles := Without(s.bundles, k)))
  }

  function UpsertWorkspaceStep(s: State, workspace: int, r: Request): Result<State, Error> {
    var kept := WorkspaceSettings(s, workspace);
    var next := Chosen(r, kept, kept.net);
    var k := First(WorkspaceIds(s.workspaces), workspace);
    if !Available(s, workspace, next.bundleIds) then Err(BundleNotFound)
    else
      var policy := WorkspacePolicy(workspace, next);
      Ok(s.(workspaces := if k < |s.workspaces| then s.workspaces[k := policy] else s.workspaces + [policy]))
  }

  /** A project that sends grants or network settings of its own stops inheriting. */
  function ProjectCapability(r: Request, kept: Option<Capability>): Capability {
    Or(r.capability, Or(kept, if r.grants.Some? || r.net.Some? then Custom else Inherit))
  }

  function UpsertProjectStep(s: State, workspace: int, project: int, r: Request): Result<State, Error> {
    var k := FindProject(s, workspace, project);
    var kept := if k < |s.projects| then s.projects[k].settings
                else BLANK.(net := WorkspaceSettings(s, workspace).net);
    var next := Chosen(r, kept, kept.net);
    if !Available(s, workspace, next.bundleIds) then Err(BundleNotFound)
    else
      var capability := ProjectCapability(r, if k < |s.projects| then Some(s.projects[k].capability) else None);
      var policy := ProjectPolicy(workspace, project, capability, next);
      Ok(s.(projects := if k < |s.projects| then s.projects[k := policy] else s.projects + [policy]))
  }

  /** The ids are checked whatever the mode; a channel that inherits keeps nothing of its own. */
  function UpsertChannelStep(s: State, route: Route, r: Request): Result<State, Error> {
    if FindProject(s, route.workspace, route.project) == |s.projects| then Err(ProjectNotFound)
    else
      var k := FindChannel(s, route);
      var kept := if k < |s.channels| then s.channels[k].settings else BLANK;
      var next := Chosen(r, kept, kept.net);
      if !Available(s, route.workspace, next.bundleIds) then Err(BundleNotFound)
      else
        var capability := Or(r.capability, if k < |s.channels| then s.channels[k].capability else Inherit);
        var policy := ChannelPolicy(route, capability, if capability.Inherit? then BLANK else next);
        Ok(s.(channels := if k < |s.channels| then s.channels[k := policy] else s.channels + [policy]))
  }

  function RemoveChannelStep(s: State, route: Route): Result<State, Error> {
    var k := FindChannel(s, route);
    Ok(if k < |s.channels| then s.(channels := Without(s.channels, k)) else s)
  }

  function Step(s: State, call: Call): Result<State, Error> {
    match call
    case UpsertBundle(r) => UpsertBundleStep(s, r)
    case SetEnabled(w, id, enabled, expected) => SetEnabledStep(s, w, id, enabled, expected)
    case RemoveBundle(w, id, expected) => RemoveBundleStep(s, w, id, expected)
    case UpsertWorkspace(w, r) => UpsertWorkspaceStep(s, w, r)
    case UpsertProject(w, p, r) => UpsertProjectStep(s, w, p, r)
    case UpsertChannel(route, r) => UpsertChannelStep(s, route, r)
    case RemoveChannel(route) => RemoveChannelStep(s, route)
  }

  /** A refused call saves nothing. */
  function After(s: State, call: Call): State {
    var r := Step(s, call);
    if r.Ok? then r.value else s
  }

  /** A new store: one workspace with its default project. */
  function Fresh(workspace: int, project: int): State {
    State([WorkspacePolicy(workspace, BLANK)], [ProjectPolicy(workspace, project, Inherit, BLANK)], [], [])
  }

  function StoreRun(workspace: int, project: int, calls: seq<Call>): State {
    if calls == [] then Fresh(workspace, project)
    else After(StoreRun(workspace, project, calls[..|calls| - 1]), calls[|calls| - 1])
  }

  // ---------------------------------------------------------------- the store

  /** Did the call do what `Step` says: save the new state, or refuse and keep the old one? */
  predicate Done<T>(before: State, now: State, call: Call, r: Result<T, Error>) {
    match Step(before, call)
    case Ok(next) => r.Ok? && now == next
    case Err(e) => r == Err(e) && now == before
  }

  class PolicyStore {
    var workspaces: seq<WorkspacePolicy>
    var projects: seq<ProjectPolicy>
    var channels: seq<ChannelPolicy>
    var bundles: seq<Bundle>

    constructor (workspace: int, project: int)
      ensures Now() == Fresh(workspace, project)
    {
      workspaces, projects := [WorkspacePolicy(workspace, BLANK)], [ProjectPolicy(workspace, project, Inherit, BLANK)];
      channels, bundles := [], [];
    }

    function Now(): State
      reads this
    {
      State(workspaces, projects, channels, bundles)
    }

    method UpsertCapabilityBundle(r: BundleRequest) returns (res: Result<Bundle, Error>)
      modifies this
      ensures Done(old(Now()), Now(), UpsertBundle(r), res)
      ensures res.Ok? ==> res.value in bundles && res.value.workspace == r.workspace && Some(res.value.id) == r.id
      ensures if r.id.None? then res == Err(InvalidId)
              else if !r.named then res == Err(NameRequired)
              else if forall w :: w in old(workspaces) ==> w.id != r.workspace then res == Err(WorkspaceNotFound)
              else
                var k := FindBundle(old(Now()), r.workspace, r.id.value);
                var was := if k < |old(bundles)| then old(bundles)[k]
                           else Bundle(r.workspace, r.id.value, true, 0, [], Net(DenyByDefault, []));
                if r.expected.Some? && r.expected.value != was.revision then res == Err(RevisionConflict(was.revision))
                else
                  && res.Ok? && PutAt(old(bundles), bundles, k, res.value) && res.value.revision == was.revision + 1
                  && (r.enabled.Some? ==> res.value.enabled == r.enabled.value)
                  && (r.enabled.None? ==> res.value.enabled == was.enabled)
                  && (r.grants.Some? ==> res.value.grants == r.grants.value)
                  && (r.grants.None? ==> res.value.grants == was.grants)
                  && NetHonours(r.net, was.net, res.value.net)
    {
      assert r.workspace in WorkspaceIds(workspaces) <==> exists w :: w in workspaces && w.id == r.workspace by {
        Configured(workspaces, r.workspace);
      }
      if r.id.None? { return Err(InvalidId); }
      if !r.named { return Err(NameRequired); }
      if r.workspace !in WorkspaceIds(workspaces) { return Err(WorkspaceNotFound); }
      var id := r.id.value;
      var k := FindBundle(Now(), r.workspace, id);
      var revision, enabled, grants, net := 0, true, [], CLOSED;
      if k < |bundles| {
        revision, enabled, grants, net := bundles[k].revision, bundles[k].enabled, bundles[k].grants, bundles[k].net;
      }
      if r.expected.Some? && r.expected.value != revision { return Err(RevisionConflict(revision)); }
      var bundle :=
        Bundle(r.workspace, id, Or(r.enabled, enabled), revision + 1, Or(r.grants, grants), ChosenNet(r.net, net));
      if k < |bundles| {
        bundles := bundles[k := bundle];
      } else {
        bundles := bundles + [bundle];
      }
      assert bundles[k] == bundle;
      return Ok(bundle);
    }

    method SetCapabilityBundleEnabled(workspace: int, id: RawId, enabled: bool, expected: Option<nat>)
      returns (res: Result<Bundle, Error>)
      modifies this`bundles
      ensures Done(old(Now()), Now(), SetEnabled(workspace, id, enabled, expected), res)
      ensures res.Ok? ==> res.value in bundles && res.value.workspace == workspace && Some(res.value.id) == id
      ensures if id.None? then res == Err(InvalidId)
              else
                var k := FindBundle(old(Now()), workspace, id.value);
                if k == |old(bundles)| then res == Err(BundleNotFound)
                else if expected.Some? && expected.value != old(bundles)[k].revision then
                  res == Err(RevisionConflict(old(bundles)[k].revision))
                else
                  && res == Ok(old(bundles)[k].(enabled := enabled, revision := old(bundles)[k].revision + 1))
                  && bundles == old(bundles)[k := res.value]
    {
      if id.None? { return Err(InvalidId); }
      var k := FindBundle(Now(), workspace, id.value);
      if k == |bundles| { return Err(BundleNotFound); }
      var existing := bundles[k];
      if expected.Some? && expected.value != existing.revision { return Err(RevisionConflict(existing.revision)); }
      var bundle := existing.(enabled := enabled, revision := existing.revision + 1);
      bundles := bundles[k := bundle];
      assert bundles[k] == bundle;
      return Ok(bundle);
    }

    method RemoveCapabilityBundle(workspace: int, id: RawId, expected: Option<nat>)
      returns (res: Result<Option<Bundle>, Error>)
      modifies this`bundles
      ensures Done(old(Now()), Now(), RemoveBundle(workspace, id, expected), res)
      ensures res.Ok? && res.value.Some? ==>
        res.value.value in old(bundles) && res.value.value.workspace == workspace && Some(res.value.value.id) == id
      ensures if id.None? then res == Err(InvalidId)
              else
                var k := FindBundle(old(Now()), workspace, id.value);
                if k == |old(bundles)| then res == Ok(None) && bundles == old(bundles)
                else if expected.Some? && expected.value != old(bundles)[k].revision then
                  res == Err(RevisionConflict(old(bundles)[k].revision))
                else if Referenced(old(Now()), workspace, id.value) then res == Err(InUse)
                else res == Ok(Some(old(bundles)[k])) && bundles == old(bundles)[..k] + old(bundles)[k + 1..]
    {
      if id.None? { return Err(InvalidId); }
      var k := FindBundle(Now(), workspace, id.value);
      if k == |bundles| { return Ok(None); }
      var existing := bundles[k];
      if expected.Some? && expected.value != existing.revision { return Err(RevisionConflict(existing.revision)); }
      if Referenced(Now(), workspace, id.value) { return Err(InUse); }
      bundles := bundles[..k] + bundles[k + 1..];
      return Ok(Some(existing));
    }

    method UpsertWorkspacePolicy(workspace: int, r: Request) returns (res: Result<WorkspacePolicy, Error>)
      modifies this`workspaces
      ensures Done(old(Now()), Now(), UpsertWorkspace(workspace, r), res)
      ensures res.Ok? ==> res.value in workspaces && res.value.id == workspace
      ensures var kept := WorkspaceSettings(old(Now()), workspace);
              if Misses(old(Now()), workspace, r, kept) then res == Err(BundleNotFound)
              else
                && res.Ok? && Honours(r, kept, res.value.settings)
                && PutAt(old(workspaces), workspaces, First(WorkspaceIds(old(workspaces)), workspace), res.value)
    {
      var kept := WorkspaceSettings(Now(), workspace);
      AvailableExact(Now(), workspace, r, kept);
      ChosenHonours(r, kept);
      var next := Chosen(r, kept, kept.net);
      if !Available(Now(), workspace, next.bundleIds) { return Err(BundleNotFound); }
      var policy := WorkspacePolicy(workspace, next);
      var k := First(WorkspaceIds(workspaces), workspace);
      if k < |workspaces| {
        workspaces := workspaces[k := policy];
      } else {
        workspaces := workspaces + [policy];
      }
      assert workspaces[k] == policy;
      return Ok(policy);
    }

    method UpsertProjectPolicy(workspace: int, project: int, r: Request) returns (res: Result<ProjectPolicy, Error>)
      modifies this`projects
      ensures Done(old(Now()), Now(), UpsertProject(workspace, project, r), res)
      ensures res.Ok? ==> res.value in projects && res.value.workspace == workspace && res.value.project == project
      ensures var k := FindProject(old(Now()), workspace, project);
              var kept := if k < |old(projects)| then old(projects)[k].settings
                          else Settings([], [], WorkspaceSettings(old(Now()), workspace).net);
              if Misses(old(Now()), workspace, r, kept) then res == Err(BundleNotFound)
              else
                && res.Ok? && Honours(r, kept, res.value.settings) && PutAt(old(projects), projects, k, res.value)
                && (r.capability.Some? ==> res.value.capability == r.capability.value)
                && (r.capability.None? && k < |old(projects)| ==> res.value.capability == old(projects)[k].capability)
                && (r.capability.None? && k == |old(projects)| ==>
                      res.value.capability == if r.grants.Some? || r.net.Some? then Custom else Inherit)
    {
      var k := FindProject(Now(), workspace, project);
      var kept := BLANK.(net := WorkspaceSettings(Now(), workspace).net);
      if k < |projects| {
        kept := projects[k].settings;
      }
      AvailableExact(Now(), workspace, r, kept);
      ChosenHonours(r, kept);
      var next := Chosen(r, kept, kept.net);
      if !Available(Now(), workspace, next.bundleIds) { return Err(BundleNotFound); }
      if k < |projects| {
        var policy := ProjectPolicy(workspace, project, ProjectCapability(r, Some(projects[k].capability)), next);
        projects := projects[k := policy];
        assert projects[k] == policy;
        return Ok(policy);
      } else {
        var policy := ProjectPolicy(workspace, project, ProjectCapability(r, None), next);
        projects := projects + [policy];
        assert projects[k] == policy;
        return Ok(policy);
      }
    }

    method UpsertChannelPolicy(route: Route, r: Request) returns (res: Result<ChannelPolicy, Error>)
      modifies this`channels
      ensures Done(old(Now()), Now(), UpsertChannel(route, r), res)
      ensures res.Ok? ==> res.value in channels && res.value.route == route
      ensures var k := FindChannel(old(Now()), route);
              var kept := if k < |old(channels)| then old(channels)[k].settings
                          else Settings([], [], Net(DenyByDefault, []));
              if forall p :: p in old(projects) ==> p.workspace != route.workspace || p.project != route.project then
                res == Err(ProjectNotFound)
              else if Misses(old(Now()), route.workspace, r, kept) then res == Err(BundleNotFound)
              else
                && res.Ok? && PutAt(old(channels), channels, k, res.value)
                && (r.capability.Some? ==> res.value.capability == r.capability.value)
                && (r.capability.None? && k < |old(channels)| ==> res.value.capability == old(channels)[k].capability)
                && (r.capability.None? && k == |old(channels)| ==> res.value.capability == Inherit)
                && (if res.value.capability == Inherit then
                      res.value.settings == Settings([], [], Net(DenyByDefault, []))
                    else Honours(r, kept, res.value.settings))
    {
      if FindProject(Now(), route.workspace, route.project) == |projects| { return Err(ProjectNotFound); }
      var k := FindChannel(Now(), route);
      var kept, capability := BLANK, Inherit;
      if k < |channels| {
        kept, capability := channels[k].settings, channels[k].capability;
      }
      AvailableExact(Now(), route.workspace, r, kept);
      ChosenHonours(r, kept);
      var next := Chosen(r, kept, kept.net);
      if !Available(Now(), route.workspace, next.bundleIds) { return Err(BundleNotFound); }
      capability := Or(r.capability, capability);
      var policy := ChannelPolicy(route, capability, if capability.Inherit? then BLANK else next);
      if k < |channels| {
        channels := channels[k := policy];
      } else {
        channels := channels + [policy];
      }
      assert channels[k] == policy;
      return Ok(policy);
    }

    method RemoveChannelPolicy(route: Route) returns (res: Result<Option<ChannelPolicy>, Error>)
      modifies this`channels
      ensures Done(old(Now()), Now(), RemoveChannel(route), res)
      ensures res.Ok? && res.value.Some? ==> res.value.value in old(channels) && res.value.value.route == route
      ensures var k := FindChannel(old(Now()), route);
              if k == |old(channels)| then res == Ok(None) && channels == old(channels)
              else res == Ok(Some(old(channels)[k])) && channels == old(channels)[..k] + old(channels)[k + 1..]
    {
      var k := FindChannel(Now(), route);
      if k == |channels| { return Ok(None); }
      var existing := channels[k];
      channels := channels[..k] + channels[k + 1..];
      return Ok(Some(existing));
    }
  }
}
