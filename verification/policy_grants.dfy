/** Which tool grants a thread gets: remembered ones, those of its bundles, and those of the deciding level. */
module PolicyGrants {
  import opened Wrappers
  import opened Lookup
  import opened Policy
  import opened PolicyRuns
  import opened PolicyAccess

  predicate Has(grants: seq<Grant>, id: int) { exists i :: 0 <= i < |grants| && grants[i].id == id }

  function HoldsGrant(id: int): Settings -> bool { (x: Settings) => Has(x.grants, id) }

  function Offers(g: Grant): Settings -> bool { (x: Settings) => g in x.grants }

  /** The grants of the capability level in force. */
  function LevelGrants(workspace: Settings, project: Option<ProjectPolicy>, channel: Option<ChannelPolicy>): seq<Grant>
  {
    var inherits := project.None? || project.value.capability.Inherit?;
    var base := if inherits then workspace.grants else project.value.settings.grants;
    if channel.None? || channel.value.capability.Inherit? then base
    else if channel.value.capability.Custom? then channel.value.settings.grants
    else base + channel.value.settings.grants
  }

  function BundleGrants(bundles: seq<Bundle>): seq<Grant> {
    if bundles == [] then [] else BundleGrants(bundles[..|bundles| - 1]) + bundles[|bundles| - 1].grants
  }

  function AllGrants(s: State, workspace: int, project: int, route: Option<Route>, memory: seq<Grant>): seq<Grant> {
    memory + BundleGrants(AccessBundles(s, workspace, project, route))
    + LevelGrants(WorkspaceSettings(s, workspace), ProjectOf(s, workspace, project), ChannelOf(s, route))
  }

  /** `flatMap` over the bundles, then the level's, each id kept once. */
  method AccessGrants(s: State, workspace: int, project: int, route: Option<Route>, memory: seq<Grant>)
    returns (r: seq<Grant>)
    ensures Deduped(AllGrants(s, workspace, project, route, memory), r)
  {
    var bundles := AccessBundles(s, workspace, project, route);
    var grants := [];
    for i := 0 to |bundles|
      invariant grants == BundleGrants(bundles[..i])
    {
      assert bundles[..i + 1][..i] == bundles[..i];
      grants := grants + bundles[i].grants;
    }
    assert bundles[..|bundles|] == bundles;
    var level := LevelGrants(WorkspaceSettings(s, workspace), ProjectOf(s, workspace, project), ChannelOf(s, route));
    r := DedupeGrants(memory + grants + level);
  }

  lemma HasIsId(grants: seq<Grant>, id: int)
    ensures id in GrantIds(grants) <==> Has(grants, id)
  {
    if Has(grants, id) {
      var i :| 0 <= i < |grants| && grants[i].id == id;
      assert GrantIds(grants)[i] == id;
    }
    if id in GrantIds(grants) {
      var i :| 0 <= i < |grants| && GrantIds(grants)[i] == id;
      assert grants[i].id == id;
    }
  }

  lemma HasEither(a: seq<Grant>, b: seq<Grant>, id: int)
    ensures Has(a + b, id) <==> Has(a, id) || Has(b, id)
  {
    if Has(a, id) {
      var i :| 0 <= i < |a| && a[i].id == id;
      assert (a + b)[i].id == id;
    }
    if Has(b, id) {
      var i :| 0 <= i < |b| && b[i].id == id;
      assert (a + b)[|a| + i].id == id;
    }
  }

  /** Of two lists the second decides where it has the id. */
  lemma {:induction false} LastOfTwo(a: seq<Grant>, b: seq<Grant>, id: int)
    requires Has(a, id) || Has(b, id)
    ensures id in GrantIds(a + b) && (Has(b, id) ==> id in GrantIds(b)) && (!Has(b, id) ==> id in GrantIds(a))
    ensures LastWith(a + b, id) == if Has(b, id) then LastWith(b, id) else LastWith(a, id)
  {
    HasEither(a, b, id);
    HasIsId(a + b, id);
    HasIsId(a, id);
    HasIsId(b, id);
    if b == [] {
      assert a + b == a;
    } else {
      var n := |b| - 1;
      assert a + b == a + b[..n] + [b[n]] && b == b[..n] + [b[n]];
      OneMoreGrant(a + b[..n], b[n], id);
      OneMoreGrant(b[..n], b[n], id);
      if b[n].id != id {
        HasEither(b[..n], [b[n]], id);
        LastOfTwo(a, b[..n], id);
      }
    }
  }

  lemma {:induction false} BundleHas(bundles: seq<Bundle>, id: int)
    ensures Has(BundleGrants(bundles), id) <==> exists b :: b in bundles && Has(b.grants, id)
  {
    if bundles != [] {
      var n := |bundles| - 1;
      assert bundles == bundles[..n] + [bundles[n]];
      BundleHas(bundles[..n], id);
      HasEither(BundleGrants(bundles[..n]), bundles[n].grants, id);
    }
  }

  lemma {:induction false} OfBundle(bundles: seq<Bundle>, g: Grant) returns (b: Bundle)
    requires g in BundleGrants(bundles)
    ensures b in bundles && g in b.grants
  {
    var n := |bundles| - 1;
    assert bundles == bundles[..n] + [bundles[n]];
    if g in bundles[n].grants {
      b := bundles[n];
    } else {
      b := OfBundle(bundles[..n], g);
    }
  }

  lemma LevelHas(w: WorkspacePolicy, p: Option<ProjectPolicy>, c: Option<ChannelPolicy>, id: int)
    ensures Has(LevelGrants(w.settings, p, c), id) <==> LevelSays(w, p, c, HoldsGrant(id))
  {
    var base := if p.None? || p.value.capability.Inherit? then w.settings.grants else p.value.settings.grants;
    if c.Some? {
      HasEither(base, c.value.settings.grants, id);
    }
  }

  /** An enabled bundle of the workspace that the deciding level names has the grant. */
  ghost predicate BundleHolds(s: State, w: WorkspacePolicy, p: Option<ProjectPolicy>, c: Option<ChannelPolicy>,
                              id: int)
  {
    exists b :: b in s.bundles && b.workspace == w.id && b.enabled && Has(b.grants, id)
                && LevelSays(w, p, c, NamesBundle(b.id))
  }

  lemma BundleHoldsExact(s: State, workspace: int, project: int, route: Option<Route>, w: WorkspacePolicy,
                         p: Option<ProjectPolicy>, c: Option<ChannelPolicy>, id: int)
    requires Keyed(s) && InForce(s, workspace, project, route, w, p, c)
    ensures Has(BundleGrants(AccessBundles(s, workspace, project, route)), id) <==> BundleHolds(s, w, p, c, id)
  {
    var bundles := AccessBundles(s, workspace, project, route);
    BundleHas(bundles, id);
    if b :| b in bundles && Has(b.grants, id) {
      BundleInForce(s, workspace, project, route, w, p, c, b);
    }
    if BundleHolds(s, w, p, c, id) {
      var b :| b in s.bundles && b.workspace == w.id && b.enabled && Has(b.grants, id)
               && LevelSays(w, p, c, NamesBundle(b.id));
      BundleInForce(s, workspace, project, route, w, p, c, b);
      assert b in bundles;
    }
  }

  /** The grant with the id, if the list has one. */
  ghost predicate Gives(r: seq<Grant>, id: int, g: Grant) { g in r && g.id == id }

  /**
    In every reachable configuration an id is granted exactly when the deciding level,
    a bundle it names or the memory has it, once; and the value is the level's if it
    has one, else that of a bundle, else the remembered one.
   */
  lemma GrantsExact(home: int, default: int, calls: seq<Call>, workspace: int, project: int, route: Option<Route>,
                    w: WorkspacePolicy, p: Option<ProjectPolicy>, c: Option<ChannelPolicy>, memory: seq<Grant>,
                    r: seq<Grant>, id: int)
    requires InForce(StoreRun(home, default, calls), workspace, project, route, w, p, c)
    requires Deduped(AllGrants(StoreRun(home, default, calls), workspace, project, route, memory), r)
    ensures var s := StoreRun(home, default, calls);
            && Distinct(GrantIds(r))
            && (Has(r, id) <==>
                  LevelSays(w, p, c, HoldsGrant(id)) || BundleHolds(s, w, p, c, id) || Has(memory, id))
            && forall g :: Gives(r, id, g) ==>
                 if LevelSays(w, p, c, HoldsGrant(id)) then LevelSays(w, p, c, Offers(g))
                 else if BundleHolds(s, w, p, c, id) then exists b :: b in s.bundles && b.enabled && g in b.grants
                 else g in memory
  {
    var s := StoreRun(home, default, calls);
    ReachableInv(home, default, calls);
    ForceIsFound(s, workspace, project, route, w, p, c);
    var bundles, level := BundleGrants(AccessBundles(s, workspace, project, route)), LevelGrants(w.settings, p, c);
    BundleHoldsExact(s, workspace, project, route, w, p, c, id);
    LevelHas(w, p, c, id);
    HasEither(memory, bundles, id);
    HasEither(memory + bundles, level, id);
    HasIsId(r, id);
    HasIsId(memory + bundles + level, id);
    forall g | Gives(r, id, g)
      ensures if Has(level, id) then LevelSays(w, p, c, Offers(g))
              else if Has(bundles, id) then exists b :: b in s.bundles && b.enabled && g in b.grants
              else g in memory
    {
      ValueFrom(memory, bundles, level, r, id, g);
      if g in bundles {
        var b := OfBundle(AccessBundles(s, workspace, project, route), g);
      }
    }
  }

  lemma ValueFrom(memory: seq<Grant>, bundles: seq<Grant>, level: seq<Grant>, r: seq<Grant>, id: int, g: Grant)
    requires Deduped(memory + bundles + level, r) && Gives(r, id, g)
    ensures if Has(level, id) then g in level else if Has(bundles, id) then g in bundles else g in memory
  {
    var i :| 0 <= i < |r| && r[i] == g;
    HasIsId(memory + bundles + level, id);
    HasEither(memory + bundles, level, id);
    HasEither(memory, bundles, id);
    LastOfTwo(memory + bundles, level, id);
    if !Has(level, id) {
      LastOfTwo(memory, bundles, id);
    }
  }
}
