/** What a thread's access bundle resolves to: bundles, network policy and grants. */
module PolicyAccess {
  import opened Wrappers
  import opened Lookup
  import opened Policy
  import opened PolicyRuns

  // ------------------------------------------------------------ which bundles

  /** The project's policy in force, if configured. */
  function ProjectOf(s: State, workspace: int, project: int): Option<ProjectPolicy> {
    var k := FindProject(s, workspace, project);
    if k < |s.projects| then Some(s.projects[k]) else None
  }

  /** The channel's policy; a direct thread has none. */
  function ChannelOf(s: State, route: Option<Route>): Option<ChannelPolicy> {
    if route.None? then None
    else
      var k := FindChannel(s, route.value);
      if k < |s.channels| then Some(s.channels[k]) else None
  }

  function ResolvedIds(workspace: Settings, project: Option<ProjectPolicy>, channel: Option<ChannelPolicy>)
    : (ids: seq<int>)
  {
    var projectIds := if project.None? || project.value.capability.Inherit? then Dedupe(workspace.bundleIds)
                      else Dedupe(project.value.settings.bundleIds);
    if channel.Some? && channel.value.capability.Custom? then Dedupe(channel.value.settings.bundleIds)
    else if channel.Some? && channel.value.capability.Extend? then Dedupe(projectIds + channel.value.settings.bundleIds)
    else projectIds
  }

  /** The enabled bundles of the workspace among `ids`, in catalogue order. */
  function EnabledAmong(bundles: seq<Bundle>, workspace: int, ids: seq<int>): (r: seq<Bundle>)
    ensures forall b :: b in r <==> b in bundles && b.workspace == workspace && b.enabled && b.id in ids
  {
    if bundles == [] then []
    else
      var n := |bundles| - 1;
      var b := bundles[n];
      assert bundles == bundles[..n] + [b];
      EnabledAmong(bundles[..n], workspace, ids)
      + if b.workspace == workspace && b.enabled && b.id in ids then [b] else []
  }

  lemma {:induction false} EnabledOnce(bundles: seq<Bundle>, workspace: int, ids: seq<int>)
    requires Distinct(BundleKeys(bundles))
    ensures Distinct(BundleKeys(EnabledAmong(bundles, workspace, ids)))
  {
    if bundles != [] {
      var n := |bundles| - 1;
      var keys := BundleKeys(bundles);
      assert BundleKeys(bundles[..n]) == keys[..n];
      EnabledOnce(bundles[..n], workspace, ids);
      var before := EnabledAmong(bundles[..n], workspace, ids);
      LastKeyIsNew(bundles, before);
      assert before + [] == before;
      assert BundleKeys(before + [bundles[n]]) == BundleKeys(before) + [keys[n]];
    }
  }

  lemma LastKeyIsNew(bundles: seq<Bundle>, some: seq<Bundle>)
    requires bundles != [] && Distinct(BundleKeys(bundles))
    requires forall b :: b in some ==> b in bundles[..|bundles| - 1]
    ensures forall i :: 0 <= i < |some| ==> BundleKeys(some)[i] != BundleKeys(bundles)[|bundles| - 1]
  {
    var n, keys := |bundles| - 1, BundleKeys(bundles);
    forall i | 0 <= i < |some|
      ensures BundleKeys(some)[i] != keys[n]
    {
      assert some[i] in some && some[i] in bundles[..n];
      var j :| 0 <= j < n && bundles[j] == some[i];
      assert keys[j] == BundleKeys(some)[i];
    }
  }

  function Resolved(s: State, workspace: int, project: int, route: Option<Route>): seq<int> {
    ResolvedIds(WorkspaceSettings(s, workspace), ProjectOf(s, workspace, project), ChannelOf(s, route))
  }

  function AccessBundles(s: State, workspace: int, project: int, route: Option<Route>): seq<Bundle> {
    EnabledAmong(s.bundles, workspace, Resolved(s, workspace, project, route))
  }

  /** A resolved id comes from the level that decides: channel, project or workspace. */
  predicate Names(s: State, workspace: int, project: int, route: Option<Route>, id: int) {
    var c := ChannelOf(s, route);
    var p := ProjectOf(s, workspace, project);
    if c.Some? && c.value.capability.Custom? then id in c.value.settings.bundleIds
    else
      || (c.Some? && c.value.capability.Extend? && id in c.value.settings.bundleIds)
      || id in (if p.None? || p.value.capability.Inherit? then WorkspaceSettings(s, workspace).bundleIds
                else p.value.settings.bundleIds)
  }

  lemma ResolvedNames(s: State, workspace: int, project: int, route: Option<Route>, id: int)
    ensures id in Resolved(s, workspace, project, route) <==> Names(s, workspace, project, route, id)
  {
  }

  predicate Enabled(s: State, workspace: int, id: int) {
    var k := FindBundle(s, workspace, id);
    k < |s.bundles| && s.bundles[k].enabled
  }

  lemma NamedExists(s: State, workspace: int, project: int, route: Option<Route>, id: int)
    requires Inv(s) && workspace in WorkspaceIds(s.workspaces)
    requires route.Some? ==> route.value.workspace == workspace
    requires Names(s, workspace, project, route, id)
    ensures FindBundle(s, workspace, id) < |s.bundles|
  {
  }

  /** A bundle of the catalogue is the one its key finds. */
  lemma FoundByKey(s: State, b: Bundle)
    requires Keyed(s) && b in s.bundles
    ensures FindBundle(s, b.workspace, b.id) < |s.bundles| && s.bundles[FindBundle(s, b.workspace, b.id)] == b
  {
    var i :| 0 <= i < |s.bundles| && s.bundles[i] == b;
    assert BundleKeys(s.bundles)[i] == (b.workspace, b.id);
  }

  /**
    In every reachable configuration, each id the deciding level names exists in
    the workspace's catalogue, and the access bundle holds exactly the enabled
    ones among them, each once. A workspace that is not configured gets none.
   */
  lemma ResolutionExact(home: int, default: int, calls: seq<Call>, workspace: int, project: int,
                        route: Option<Route>, id: int)
    requires route.Some? ==> route.value.workspace == workspace
    ensures var s := StoreRun(home, default, calls);
            var r := AccessBundles(s, workspace, project, route);
            && Distinct(BundleKeys(r))
            && (workspace in WorkspaceIds(s.workspaces) ==>
                  && (Names(s, workspace, project, route, id) ==> FindBundle(s, workspace, id) < |s.bundles|)
                  && ((workspace, id) in BundleKeys(r) <==>
                      Names(s, workspace, project, route, id) && Enabled(s, workspace, id)))
            && (workspace !in WorkspaceIds(s.workspaces) ==> r == [])
  {
    var s := StoreRun(home, default, calls);
    var r := AccessBundles(s, workspace, project, route);
    ReachableInv(home, default, calls);
    EnabledOnce(s.bundles, workspace, Resolved(s, workspace, project, route));
    if workspace in WorkspaceIds(s.workspaces) {
      ResolvedNames(s, workspace, project, route, id);
      if Names(s, workspace, project, route, id) {
        NamedExists(s, workspace, project, route, id);
        EnabledIsResolved(s, workspace, project, route, id);
      }
      ResolvedIsEnabled(s, workspace, project, route, id);
    }
    if r != [] {
      assert r[0] in r;
      assert workspace in WorkspaceIds(s.workspaces);
    }
  }

  lemma EnabledIsResolved(s: State, workspace: int, project: int, route: Option<Route>, id: int)
    requires Inv(s) && id in Resolved(s, workspace, project, route)
    requires FindBundle(s, workspace, id) < |s.bundles|
    ensures Enabled(s, workspace, id) ==> (workspace, id) in BundleKeys(AccessBundles(s, workspace, project, route))
  {
    var r := AccessBundles(s, workspace, project, route);
    var b := s.bundles[FindBundle(s, workspace, id)];
    if b.enabled {
      assert b in r;
      var i :| 0 <= i < |r| && r[i] == b;
      assert BundleKeys(r)[i] == (workspace, id);
    }
  }

  lemma ResolvedIsEnabled(s: State, workspace: int, project: int, route: Option<Route>, id: int)
    requires Inv(s)
    ensures (workspace, id) in BundleKeys(AccessBundles(s, workspace, project, route)) ==>
              Enabled(s, workspace, id) && id in Resolved(s, workspace, project, route)
  {
    var r := AccessBundles(s, workspace, project, route);
    if (workspace, id) in BundleKeys(r) {
      var i := First(BundleKeys(r), (workspace, id));
      assert r[i] in r;
      FoundByKey(s, r[i]);
    }
  }

  // ------------------------------------------------------------ network policy

  function Extended(base: Net, extra: Net): Net {
    var hosts := Dedupe(base.hosts + extra.hosts);
    Net(if base.mode.AllowAll? || extra.mode.AllowAll? then AllowAll
        else if hosts != [] then Restricted else DenyByDefault, hosts)
  }

  /** The networks of the bundles folded in order. */
  function Reduced(nets: seq<Net>): Net {
    if nets == [] then CLOSED else Extended(Reduced(nets[..|nets| - 1]), nets[|nets| - 1])
  }

  /** The fold's loop. */
  method Reduce(nets: seq<Net>) returns (r: Net)
    ensures r == Reduced(nets)
  {
    r := CLOSED;
    for i := 0 to |nets|
      invariant r == Reduced(nets[..i])
    {
      assert nets[..i + 1][..i] == nets[..i];
      r := Extended(r, nets[i]);
    }
    assert nets[..|nets|] == nets;
  }

  predicate Opens(nets: seq<Net>) { exists i :: 0 <= i < |nets| && nets[i].mode.AllowAll? }

  predicate Hosts(nets: seq<Net>, host: int) { exists i :: 0 <= i < |nets| && host in nets[i].hosts }

  /** Mode and hosts of `net` are those of all of `nets` taken together. */
  ghost predicate Combines(nets: seq<Net>, net: Net) {
    && Distinct(net.hosts)
    && (forall h :: h in net.hosts <==> Hosts(nets, h))
    && (net.mode.AllowAll? <==> Opens(nets))
    && (net.mode.Restricted? <==> !Opens(nets) && exists h :: Hosts(nets, h))
  }

  lemma OneMoreNet(nets: seq<Net>, net: Net, host: int)
    ensures Opens(nets + [net]) <==> Opens(nets) || net.mode.AllowAll?
    ensures Hosts(nets + [net], host) <==> Hosts(nets, host) || host in net.hosts
  {
    var more := nets + [net];
    assert more[|nets|] == net;
    assert forall i :: 0 <= i < |nets| ==> more[i] == nets[i];
  }

  lemma ExtendedCombines(nets: seq<Net>, net: Net, extra: Net)
    requires Combines(nets, net)
    ensures Combines(nets + [extra], Extended(net, extra))
  {
    var all := nets + [extra];
    var r := Extended(net, extra);
    forall h: int
      ensures Hosts(all, h) <==> h in r.hosts
      ensures Opens(all) <==> Opens(nets) || extra.mode.AllowAll?
    {
      OneMoreNet(nets, extra, h);
      assert h in net.hosts + extra.hosts <==> h in net.hosts || h in extra.hosts;
    }
    OneMoreNet(nets, extra, 0);
    if r.hosts != [] {
      assert Hosts(all, r.hosts[0]);
    }
  }

  lemma {:induction false} ReducedCombines(nets: seq<Net>)
    ensures Combines(nets, Reduced(nets))
  {
    if nets != [] {
      var n := |nets| - 1;
      assert nets[..n] + [nets[n]] == nets;
      ReducedCombines(nets[..n]);
      ExtendedCombines(nets[..n], Reduced(nets[..n]), nets[n]);
    }
  }

  /** The network policy of the capability level in force, before bundles. */
  function LevelNet(workspace: Settings, project: Option<ProjectPolicy>, channel: Option<ChannelPolicy>): Net {
    var inherits := project.None? || project.value.capability.Inherit?;
    var base := if inherits then workspace.net else project.value.settings.net;
    if channel.None? || channel.value.capability.Inherit? then base
    else if channel.value.capability.Custom? then channel.value.settings.net
    else Extended(base, channel.value.settings.net)
  }

  function Nets(bundles: seq<Bundle>): (nets: seq<Net>)
    ensures |nets| == |bundles|
  {
    seq(|bundles|, i requires 0 <= i < |bundles| => bundles[i].net)
  }

  function EffectiveNet(level: Net, nets: seq<Net>): Net { Extended(level, Reduced(nets)) }

  /** Closed form: the effective policy combines the level's policy and every bundle's. */
  lemma EffectiveClosedForm(level: Net, nets: seq<Net>)
    ensures Combines(nets + [level], EffectiveNet(level, nets))
  {
    ReducedCombines(nets);
    var r := Reduced(nets);
    ExtendedCombines(nets, r, level);
    var a, b := Extended(r, level), Extended(level, r);
    forall h: int
      ensures h in a.hosts <==> h in b.hosts
    {
      assert h in r.hosts + level.hosts <==> h in level.hosts + r.hosts;
    }
    assert a.hosts != [] ==> a.hosts[0] in b.hosts;
    assert b.hosts != [] ==> b.hosts[0] in a.hosts;
  }

  ghost predicate SamePolicy(a: Net, b: Net) {
    a.mode == b.mode && forall h :: h in a.hosts <==> h in b.hosts
  }

  /** The order of bundles does not matter, nor how often one appears. */
  lemma OrderIrrelevant(level: Net, xs: seq<Net>, ys: seq<Net>)
    requires forall n :: n in xs <==> n in ys
    ensures SamePolicy(EffectiveNet(level, xs), EffectiveNet(level, ys))
  {
    EffectiveClosedForm(level, xs);
    EffectiveClosedForm(level, ys);
    SameInputs(xs + [level], ys + [level]);
    SameInputs(ys + [level], xs + [level]);
  }

  lemma SameInputs(xs: seq<Net>, ys: seq<Net>)
    requires forall n :: n in xs ==> n in ys
    ensures Opens(xs) ==> Opens(ys)
    ensures forall h :: Hosts(xs, h) ==> Hosts(ys, h)
  {
    if Opens(xs) {
      var i :| 0 <= i < |xs| && xs[i].mode.AllowAll?;
      assert xs[i] in ys;
    }
    forall h | Hosts(xs, h)
      ensures Hosts(ys, h)
    {
      var i :| 0 <= i < |xs| && h in xs[i].hosts;
      assert xs[i] in ys;
    }
  }

  function AccessNet(s: State, workspace: int, project: int, route: Option<Route>): Net {
    EffectiveNet(LevelNet(WorkspaceSettings(s, workspace), ProjectOf(s, workspace, project), ChannelOf(s, route)),
                 Nets(AccessBundles(s, workspace, project, route)))
  }

  /** A host is allowed, and a policy is open, exactly when the level in force or an access bundle says so. */
  lemma AccessNetByLevel(s: State, workspace: int, project: int, route: Option<Route>, host: int)
    ensures var settings := WorkspaceSettings(s, workspace);
            var level := LevelNet(settings, ProjectOf(s, workspace, project), ChannelOf(s, route));
            var r := AccessNet(s, workspace, project, route);
            var bundles := AccessBundles(s, workspace, project, route);
            && (host in r.hosts <==> host in level.hosts || exists b :: b in bundles && host in b.net.hosts)
            && (r.mode.AllowAll? <==> level.mode.AllowAll? || exists b :: b in bundles && b.net.mode.AllowAll?)
            && (r.mode.DenyByDefault? <==> !r.mode.AllowAll? && r.hosts == [])
  {
    var level := LevelNet(WorkspaceSettings(s, workspace), ProjectOf(s, workspace, project), ChannelOf(s, route));
    var bundles := AccessBundles(s, workspace, project, route);
    var nets := Nets(bundles);
    EffectiveClosedForm(level, nets);
    OneMoreNet(nets, level, host);
    OfBundles(bundles, host);
  }

  // ------------------------------------------- the same over the policies' own fields

  /** The stored policies that apply: the workspace's, and the project's and the channel's if there are any. */
  ghost predicate InForce(s: State, workspace: int, project: int, route: Option<Route>, w: WorkspacePolicy,
                          p: Option<ProjectPolicy>, c: Option<ChannelPolicy>)
  {
    && w in s.workspaces && w.id == workspace
    && (p.Some? ==> p.value in s.projects && p.value.workspace == workspace && p.value.project == project)
    && (p.None? ==> forall x :: x in s.projects ==> x.workspace != workspace || x.project != project)
    && (c.Some? ==> c.value in s.channels && route == Some(c.value.route))
    && (c.None? ==> forall x :: x in s.channels ==> route != Some(x.route))
  }

  /**
    Which level decides: a custom channel alone; else an extending channel or the
    level below it; that is the project, unless there is none or it inherits, and
    then the workspace. `says` is what is asked of a level's settings.
   */
  predicate LevelSays(w: WorkspacePolicy, p: Option<ProjectPolicy>, c: Option<ChannelPolicy>, says: Settings -> bool) {
    if c.Some? && c.value.capability == Custom then says(c.value.settings)
    else
      || (c.Some? && c.value.capability == Extend && says(c.value.settings))
      || (if p.Some? && p.value.capability != Inherit then says(p.value.settings) else says(w.settings))
  }

  function NamesBundle(id: int): Settings -> bool { (x: Settings) => id in x.bundleIds }

  function AllowsHost(host: int): Net -> bool { (n: Net) => host in n.hosts }

  function IsOpen(): Net -> bool { (n: Net) => n.mode == AllowAll }

  predicate LevelNetSays(w: WorkspacePolicy, p: Option<ProjectPolicy>, c: Option<ChannelPolicy>, says: Net -> bool) {
    LevelSays(w, p, c, (x: Settings) => says(x.net))
  }

  /** An enabled bundle of the workspace that the deciding level names, with a network `says` holds of. */
  predicate BundleSays(s: State, w: WorkspacePolicy, p: Option<ProjectPolicy>, c: Option<ChannelPolicy>,
                       says: Net -> bool)
  {
    exists b :: b in s.bundles && b.workspace == w.id && b.enabled && says(b.net)
                && LevelSays(w, p, c, NamesBundle(b.id))
  }

  lemma ForceIsFound(s: State, workspace: int, project: int, route: Option<Route>, w: WorkspacePolicy,
                     p: Option<ProjectPolicy>, c: Option<ChannelPolicy>)
    requires Keyed(s) && InForce(s, workspace, project, route, w, p, c)
    ensures WorkspaceSettings(s, workspace) == w.settings
    ensures ProjectOf(s, workspace, project) == p && ChannelOf(s, route) == c
  {
    var i :| 0 <= i < |s.workspaces| && s.workspaces[i] == w;
    assert WorkspaceIds(s.workspaces)[i] == workspace;
    if p.Some? {
      var j :| 0 <= j < |s.projects| && s.projects[j] == p.value;
      assert ProjectKeys(s.projects)[j] == (workspace, project);
    }
    if c.Some? {
      var k :| 0 <= k < |s.channels| && s.channels[k] == c.value;
      assert Routes(s.channels)[k] == route.value;
    }
  }

  lemma BundleInForce(s: State, workspace: int, project: int, route: Option<Route>, w: WorkspacePolicy,
                      p: Option<ProjectPolicy>, c: Option<ChannelPolicy>, b: Bundle)
    requires Keyed(s) && InForce(s, workspace, project, route, w, p, c)
    ensures b in AccessBundles(s, workspace, project, route) <==>
            b in s.bundles && b.workspace == w.id && b.enabled
            && LevelSays(w, p, c, NamesBundle(b.id))
  {
    ForceIsFound(s, workspace, project, route, w, p, c);
    ResolvedNames(s, workspace, project, route, b.id);
  }

  lemma BundlesInForce(s: State, workspace: int, project: int, route: Option<Route>, w: WorkspacePolicy,
                       p: Option<ProjectPolicy>, c: Option<ChannelPolicy>, says: Net -> bool)
    requires Keyed(s) && InForce(s, workspace, project, route, w, p, c)
    ensures BundleSays(s, w, p, c, says) <==>
            exists b :: b in AccessBundles(s, workspace, project, route) && says(b.net)
  {
    var bundles := AccessBundles(s, workspace, project, route);
    if b :| b in bundles && says(b.net) {
      BundleInForce(s, workspace, project, route, w, p, c, b);
    }
    if BundleSays(s, w, p, c, says) {
      var b :| b in s.bundles && b.workspace == w.id && b.enabled && says(b.net)
               && LevelSays(w, p, c, NamesBundle(b.id));
      BundleInForce(s, workspace, project, route, w, p, c, b);
      assert b in bundles;
    }
  }

  lemma LevelNetExact(w: WorkspacePolicy, p: Option<ProjectPolicy>, c: Option<ChannelPolicy>, host: int)
    ensures host in LevelNet(w.settings, p, c).hosts <==> LevelNetSays(w, p, c, AllowsHost(host))
    ensures LevelNet(w.settings, p, c).mode.AllowAll? <==> LevelNetSays(w, p, c, IsOpen())
  {
  }

  lemma HostInForce(s: State, workspace: int, project: int, route: Option<Route>, w: WorkspacePolicy,
                    p: Option<ProjectPolicy>, c: Option<ChannelPolicy>, host: int)
    requires Keyed(s) && InForce(s, workspace, project, route, w, p, c)
    ensures host in AccessNet(s, workspace, project, route).hosts <==>
            LevelNetSays(w, p, c, AllowsHost(host)) || BundleSays(s, w, p, c, AllowsHost(host))
  {
    ForceIsFound(s, workspace, project, route, w, p, c);
    AccessNetByLevel(s, workspace, project, route, host);
    LevelNetExact(w, p, c, host);
    BundlesInForce(s, workspace, project, route, w, p, c, AllowsHost(host));
  }

  lemma OpenInForce(s: State, workspace: int, project: int, route: Option<Route>, w: WorkspacePolicy,
                    p: Option<ProjectPolicy>, c: Option<ChannelPolicy>)
    requires Keyed(s) && InForce(s, workspace, project, route, w, p, c)
    ensures AccessNet(s, workspace, project, route).mode.AllowAll? <==>
            LevelNetSays(w, p, c, IsOpen()) || BundleSays(s, w, p, c, IsOpen())
  {
    ForceIsFound(s, workspace, project, route, w, p, c);
    AccessNetByLevel(s, workspace, project, route, 0);
    LevelNetExact(w, p, c, 0);
    BundlesInForce(s, workspace, project, route, w, p, c, IsOpen());
  }

  lemma DeniesInForce(s: State, workspace: int, project: int, route: Option<Route>)
    ensures var r := AccessNet(s, workspace, project, route);
            r.mode.DenyByDefault? <==> (!r.mode.AllowAll? && forall h :: h !in r.hosts)
  {
    var r := AccessNet(s, workspace, project, route);
    AccessNetByLevel(s, workspace, project, route, 0);
    assert (forall h :: h !in r.hosts) ==> r.hosts == [] by {
      if r.hosts != [] {
        assert r.hosts[0] in r.hosts;
      }
    }
  }

  /**
    In every reachable configuration a host is allowed, and the policy open, exactly
    when the deciding level or one of the bundles it names says so; the policy denies
    by default exactly when it is not open and no host is allowed.
   */
  lemma AccessNetExact(home: int, default: int, calls: seq<Call>, workspace: int, project: int, route: Option<Route>,
                       w: WorkspacePolicy, p: Option<ProjectPolicy>, c: Option<ChannelPolicy>, host: int)
    requires InForce(StoreRun(home, default, calls), workspace, project, route, w, p, c)
    ensures var s := StoreRun(home, default, calls);
            var r := AccessNet(s, workspace, project, route);
            && (host in r.hosts <==>
                  LevelNetSays(w, p, c, AllowsHost(host)) || BundleSays(s, w, p, c, AllowsHost(host)))
            && (r.mode.AllowAll? <==> LevelNetSays(w, p, c, IsOpen()) || BundleSays(s, w, p, c, IsOpen()))
            && (r.mode.DenyByDefault? <==> !r.mode.AllowAll? && forall h :: h !in r.hosts)
  {
    var s := StoreRun(home, default, calls);
    ReachableInv(home, default, calls);
    HostInForce(s, workspace, project, route, w, p, c, host);
    OpenInForce(s, workspace, project, route, w, p, c);
    DeniesInForce(s, workspace, project, route);
  }

  lemma OfBundles(bundles: seq<Bundle>, host: int)
    ensures Hosts(Nets(bundles), host) <==> exists b :: b in bundles && host in b.net.hosts
    ensures Opens(Nets(bundles)) <==> exists b :: b in bundles && b.net.mode.AllowAll?
  {
    var nets := Nets(bundles);
    assert forall i :: 0 <= i < |nets| ==> nets[i] == bundles[i].net && bundles[i] in bundles;
    forall b | b in bundles
      ensures b.net in nets
    {
      var i :| 0 <= i < |bundles| && bundles[i] == b;
      assert nets[i] == b.net;
    }
  }

  // ------------------------------------------------------------------- grants

  function GrantIds(grants: seq<Grant>): (ids: seq<int>)
    ensures |ids| == |grants|
  {
    seq(|grants|, i requires 0 <= i < |grants| => grants[i].id)
  }

  /** The last grant with an id. */
  function LastWith(grants: seq<Grant>, id: int): (g: Grant)
    requires id in GrantIds(grants)
    ensures g.id == id && g in grants
  {
    var n := |grants| - 1;
    assert GrantIds(grants) == GrantIds(grants[..n]) + [grants[n].id];
    if grants[n].id == id then grants[n] else LastWith(grants[..n], id)
  }

  lemma {:induction false} LastIsLast(grants: seq<Grant>, id: int) returns (k: nat)
    requires id in GrantIds(grants)
    ensures k < |grants| && grants[k].id == id && LastWith(grants, id) == grants[k]
    ensures forall j :: k < j < |grants| ==> grants[j].id != id
  {
    var n := |grants| - 1;
    assert GrantIds(grants) == GrantIds(grants[..n]) + [grants[n].id];
    if grants[n].id == id {
      k := n;
    } else {
      k := LastIsLast(grants[..n], id);
    }
  }

  lemma OneMoreGrant(grants: seq<Grant>, g: Grant, id: int)
    ensures GrantIds(grants + [g]) == GrantIds(grants) + [g.id]
    ensures Dedupe(GrantIds(grants + [g])) ==
            if g.id in Dedupe(GrantIds(grants)) then Dedupe(GrantIds(grants)) else Dedupe(GrantIds(grants)) + [g.id]
    ensures id in GrantIds(grants + [g]) ==>
              LastWith(grants + [g], id) == if g.id == id then g else LastWith(grants, id)
  {
  }

  /** An insertion-ordered map after setting the ids of `grants` one by one. */
  ghost predicate MapHolds(order: seq<int>, values: map<int, Grant>, grants: seq<Grant>) {
    && order == Dedupe(GrantIds(grants))
    && (forall id :: id in values <==> id in order)
    && (forall id :: id in order ==> values[id] == LastWith(grants, id))
  }

  lemma OneMoreValue(order: seq<int>, values: map<int, Grant>, grants: seq<Grant>, g: Grant, id: int)
    requires MapHolds(order, values, grants) && id in Dedupe(GrantIds(grants + [g]))
    ensures id in values[g.id := g] && values[g.id := g][id] == LastWith(grants + [g], id)
  {
    OneMoreGrant(grants, g, id);
  }

  lemma MapHoldsMore(order: seq<int>, values: map<int, Grant>, grants: seq<Grant>, g: Grant)
    requires MapHolds(order, values, grants)
    ensures MapHolds(if g.id in values then order else order + [g.id], values[g.id := g], grants + [g])
  {
    var more, all := if g.id in values then order else order + [g.id], values[g.id := g];
    OneMoreGrant(grants, g, g.id);
    assert more == Dedupe(GrantIds(grants + [g]));
    forall id | id in more
      ensures id in all && all[id] == LastWith(grants + [g], id)
    {
      OneMoreValue(order, values, grants, g, id);
    }
    forall id | id in all
      ensures id in more
    {
      assert id == g.id || id in order;
    }
  }

  predicate Indexed(order: seq<int>, values: map<int, Grant>) {
    forall i :: 0 <= i < |order| ==> order[i] in values
  }

  lemma MapHoldsIndexed(order: seq<int>, values: map<int, Grant>, grants: seq<Grant>)
    requires MapHolds(order, values, grants)
    ensures Indexed(order, values)
  {
    forall i | 0 <= i < |order|
      ensures order[i] in values
    {
      assert order[i] in order;
    }
  }

  /** The map's values in order. */
  function Listed(order: seq<int>, values: map<int, Grant>): seq<Grant>
    requires Indexed(order, values)
  {
    seq(|order|, i requires 0 <= i < |order| => values[order[i]])
  }

  /** Each id once, in order of first occurrence, with the last value given for it. */
  ghost predicate Deduped(grants: seq<Grant>, r: seq<Grant>) {
    && GrantIds(r) == Dedupe(GrantIds(grants))
    && forall i :: 0 <= i < |r| ==> r[i].id in GrantIds(grants) && r[i] == LastWith(grants, r[i].id)
  }

  lemma ListedDeduped(order: seq<int>, values: map<int, Grant>, grants: seq<Grant>)
    requires MapHolds(order, values, grants) && Indexed(order, values)
    ensures Deduped(grants, Listed(order, values))
  {
    var r := Listed(order, values);
    forall i | 0 <= i < |r|
      ensures r[i].id == order[i] && order[i] in GrantIds(grants) && r[i] == LastWith(grants, order[i])
    {
      assert order[i] in order;
    }
    assert GrantIds(r) == order;
  }

  /** `Map.set`: setting an id again keeps its place. */
  method SetGrant(order: seq<int>, values: map<int, Grant>, ghost grants: seq<Grant>, g: Grant)
    returns (order': seq<int>, values': map<int, Grant>)
    requires MapHolds(order, values, grants)
    ensures MapHolds(order', values', grants + [g])
  {
    MapHoldsMore(order, values, grants, g);
    order' := if g.id in values then order else order + [g.id];
    values' := values[g.id := g];
  }

  /** Grant by grant into an insertion-ordered map. */
  method DedupeGrants(grants: seq<Grant>) returns (r: seq<Grant>)
    ensures Deduped(grants, r)
  {
    var order: seq<int>, values: map<int, Grant> := [], map[];
    for i := 0 to |grants|
      invariant MapHolds(order, values, grants[..i])
    {
      order, values := SetGrant(order, values, grants[..i], grants[i]);
      assert grants[..i + 1] == grants[..i] + [grants[i]];
    }
    assert grants[..|grants|] == grants;
    MapHoldsIndexed(order, values, grants);
    ListedDeduped(order, values, grants);
    r := Listed(order, values);
  }
}
