/**
 * Installing and uninstalling cert-manager: what the two commands, and Helm
 * on their behalf, may do to the CustomResourceDefinitions of a cluster.
 */
module Lifecycle {
  import opened Wrappers
  import opened Manifests

  datatype Resource = Resource(kind: string, name: string)

  datatype Cluster = Cluster(resources: set<Resource>, release: Option<Release>)

  /** The documents the chart renders with and without `installCRDs`. */
  datatype Chart = Chart(library: bool, withCrds: seq<Doc>, withoutCrds: seq<Doc>)

  /** Where an installation is made to fail; `created`, `applied` and `spared` say what Helm got done. */
  datatype Stop =
    | Never
    | AtRender
    | AtFetch
    | AtCreate(created: set<Resource>)
    | AfterCreate
    | AtHelm(applied: set<Resource>, spared: set<Resource>)

  datatype InstallError = NotInstallable | RenderFailed | BadChart | NoCrds | FetchFailed | ExistingCrds | CreateFailed | HelmFailed

  datatype Command =
    | Install(chart: Chart, dryRun: bool, wait: bool, stop: Stop)
    | Uninstall(dryRun: bool, reachable: bool, validName: bool, stores: bool, completes: bool, spared: set<Resource>)

  function CrdsOf(c: Cluster): set<Resource> {
    set r | r in c.resources && r.kind == CRD_KIND
  }

  function ResourceOf(d: Doc): Resource
    requires d.Doc?
  {
    Resource(d.kind, d.name)
  }

  function ResourcesOf(docs: seq<Doc>): set<Resource> {
    set d | d in docs && d.Doc? :: ResourceOf(d)
  }

  /** What Helm deletes with a release: all it can resolve, except what is marked to be kept. */
  function Deleted(docs: seq<Doc>): set<Resource> {
    set d | d in docs && d.Doc? && (d.kind == CRD_KIND ==> IsCrd(d)) && !IsKept(d) :: ResourceOf(d)
  }

  /* ---------- Uninstalling ---------- */

  /** Helm's own uninstall of the recorded release; it leaves `spared` when it fails on the way. */
  function HelmUninstall(c: Cluster, completes: bool, spared: set<Resource>): Cluster {
    if c.release.None? then c
    else if completes then Cluster(c.resources - Deleted(c.release.value.docs), None)
    else Cluster(c.resources - (Deleted(c.release.value.docs) - spared),
                 Some(c.release.value.(status := OtherStatus("uninstalling"))))
  }

  /** The pass over the release, then Helm's uninstall, whose failure is not reported. */
  function RunUninstall(c: Cluster, cmd: Command): (Cluster, Result<(), PassError>)
    requires cmd.Uninstall?
  {
    if cmd.dryRun then (c, Ok(()))
    else
      var (last, r) := PassOutcome(c.release, cmd.reachable, cmd.validName, cmd.stores);
      if r.Err? then (c, Err(r.error))
      else (HelmUninstall(c.(release := last), cmd.completes, cmd.spared), Ok(()))
  }

  /** An uninstall that is reported as successful has removed the release exactly when Helm completed. */
  lemma HelmFailureIsNotReported(c: Cluster, cmd: Command)
    requires cmd.Uninstall? && !cmd.dryRun && RunUninstall(c, cmd).1.Ok?
    ensures RunUninstall(c, cmd).0.release.None? <==> cmd.completes
  {
  }

  /** Once marked, no definition is among what Helm deletes. */
  lemma MarkedKeepsCrds(docs: seq<Doc>)
    ensures forall r :: r in Deleted(MarkAll(docs)) ==> r.kind != CRD_KIND
  {
    forall d | d in MarkAll(docs) && IsCrd(d) ensures IsKept(d) {
      var i :| 0 <= i < |docs| && MarkAll(docs)[i] == d;
      MarkedDocument(docs, i);
    }
  }

  /**
   * An uninstall removes a definition exactly when it goes ahead, the release records that definition
   * without the mark, and the store refused the updated release - a refusal that is only logged.
   */
  lemma UninstallLosesCrdIff(c: Cluster, cmd: Command, r: Resource)
    requires cmd.Uninstall? && r in CrdsOf(c)
    ensures r !in CrdsOf(RunUninstall(c, cmd).0) <==>
              && !cmd.dryRun && PassOutcome(c.release, cmd.reachable, cmd.validName, cmd.stores).1.Ok?
              && !cmd.stores && (cmd.completes || r !in cmd.spared)
              && exists d :: d in c.release.value.docs && LacksKeep(d) && ResourceOf(d) == r
  {
    var (last, p) := PassOutcome(c.release, cmd.reachable, cmd.validName, cmd.stores);
    if p.Ok? {
      var docs := c.release.value.docs;
      if cmd.stores {
        MarkedKeepsCrds(docs);
        RewrittenIff(docs);
        assert last.value.docs == MarkAll(docs);
      } else {
        assert r in Deleted(docs) <==> exists d :: d in docs && LacksKeep(d) && ResourceOf(d) == r;
      }
    }
  }

  /**
   * An uninstall removes anything else exactly when it goes ahead, Helm gets to it, and the release
   * records it without the mark.
   */
  lemma UninstallRemovesIff(c: Cluster, cmd: Command, r: Resource)
    requires cmd.Uninstall? && r in c.resources && r.kind != "CustomResourceDefinition"
    ensures r !in RunUninstall(c, cmd).0.resources <==>
              && !cmd.dryRun && PassOutcome(c.release, cmd.reachable, cmd.validName, cmd.stores).1.Ok?
              && (cmd.completes || r !in cmd.spared)
              && exists d :: d in c.release.value.docs && d.Doc? && !Annotated(d) && ResourceOf(d) == r
  {
    var (last, p) := PassOutcome(c.release, cmd.reachable, cmd.validName, cmd.stores);
    if p.Ok? {
      var docs := c.release.value.docs;
      DeletedOthers(docs, r);
      RewrittenIff(docs);
      assert last.value.docs == docs || last.value.docs == MarkAll(docs);
    }
  }

  /** Marking changes nothing about what Helm deletes besides definitions. */
  lemma DeletedOthers(docs: seq<Doc>, r: Resource)
    requires r.kind != "CustomResourceDefinition"
    ensures r in Deleted(docs) <==> exists d :: d in docs && d.Doc? && !Annotated(d) && ResourceOf(d) == r
    ensures r in Deleted(MarkAll(docs)) <==> r in Deleted(docs)
  {
    assert forall d :: Annotated(d) <==> IsKept(d);
    forall i | 0 <= i < |docs| ensures docs[i].Doc? && ResourceOf(docs[i]) == r ==> MarkAll(docs)[i] == docs[i] {
      MarkedDocument(docs, i);
    }
    if r in Deleted(docs) {
      var i :| 0 <= i < |docs| && docs[i].Doc? && !IsKept(docs[i]) && ResourceOf(docs[i]) == r;
      assert MarkAll(docs)[i] in MarkAll(docs);
    }
    if r in Deleted(MarkAll(docs)) {
      var i :| 0 <= i < |docs| && MarkAll(docs)[i].Doc? && !IsKept(MarkAll(docs)[i]) && ResourceOf(MarkAll(docs)[i]) == r;
      MarkedDocument(docs, i);
      assert docs[i] in docs;
    }
  }

  /** A deployed release that records one unmarked definition, and a store that refuses the update: the definition is gone. */
  lemma RefusedUpdateLosesCrd(name: string)
    ensures var crd := Doc(CRD_GROUP, "v1", CRD_KIND, name, None, "", true);
            var c := Cluster({ResourceOf(crd)}, Some(Release(Deployed, [crd])));
            var (c', r) := RunUninstall(c, Uninstall(false, true, true, false, true, {}));
            r.Ok? && CrdsOf(c) == {ResourceOf(crd)} && CrdsOf(c') == {}
  {
    var crd := Doc(CRD_GROUP, "v1", CRD_KIND, name, None, "", true);
    var cmd := Uninstall(false, true, true, false, true, {});
    var c := Cluster({ResourceOf(crd)}, Some(Release(Deployed, [crd])));
    assert crd in c.release.value.docs && LacksKeep(crd);
    assert PassOutcome(c.release, true, true, false).1 == Ok(true);
    UninstallLosesCrdIff(c, cmd, ResourceOf(crd));
  }

  /* ---------- Installing ---------- */

  predicate IsCrdResource(d: Doc) {
    d.Doc? && d.group == CRD_GROUP && d.kind == CRD_KIND
  }

  function FilterCrds(docs: seq<Doc>): seq<Doc> {
    if docs == [] then []
    else (if IsCrdResource(docs[0]) then [docs[0]] else []) + FilterCrds(docs[1..])
  }

  predicate AnyExists(c: Cluster, docs: seq<Doc>) {
    exists d :: d in docs && d.Doc? && ResourceOf(d) in c.resources
  }

  function Create(c: Cluster, docs: seq<Doc>): Cluster {
    c.(resources := c.resources + ResourcesOf(docs))
  }

  /** Helm's install of the remaining documents; a failure is rolled back if the command waits for it. */
  function HelmInstall(c: Cluster, docs: seq<Doc>, wait: bool, stop: Stop): (Cluster, Result<(), InstallError>) {
    if c.release.Some? then (c, Err(HelmFailed))
    else if !stop.AtHelm? then (Create(c, docs).(release := Some(Release(Deployed, docs))), Ok(()))
    else
      var applied := c.resources + stop.applied * ResourcesOf(docs);
      if wait then (HelmUninstall(Cluster(applied, Some(Release(Deployed, docs))), stop.spared == {}, stop.spared), Err(HelmFailed))
      else (Cluster(applied, Some(Release(OtherStatus("failed"), docs))), Err(HelmFailed))
  }

  function RunInstall(c: Cluster, cmd: Command): (Cluster, Result<(), InstallError>)
    requires cmd.Install?
  {
    var chart, stop := cmd.chart, cmd.stop;
    if chart.library then (c, Err(NotInstallable))
    else if stop == AtRender then (c, Err(RenderFailed))
    else if cmd.dryRun then (c, Ok(()))
    else if exists d :: d in chart.withCrds && d.Malformed? then (c, Err(BadChart))
    else
      var crds := FilterCrds(chart.withCrds);
      if crds == [] then (c, Err(NoCrds))
      else if stop == AtFetch then (c, Err(FetchFailed))
      else if AnyExists(c, crds) then (c, Err(ExistingCrds))
      else if stop.AtCreate? then
        (c.(resources := c.resources + stop.created * ResourcesOf(crds)), Err(CreateFailed))
      else if stop == AfterCreate then (Create(c, crds), Err(CreateFailed))
      else HelmInstall(Create(c, crds), chart.withoutCrds, cmd.wait, stop)
  }

  /** The chart renders definitions under `installCRDs` only. */
  ghost predicate RendersCrdsOnRequest(chart: Chart) {
    forall d :: d in chart.withoutCrds && d.Doc? ==> d.kind != CRD_KIND
  }

  /** The filter goes by group and kind alone, and keeps the order. */
  lemma {:induction false} FilterCrdsExact(docs: seq<Doc>)
    ensures forall d :: d in FilterCrds(docs) <==>
              d in docs && d.Doc? && d.group == "apiextensions.k8s.io" && d.kind == "CustomResourceDefinition"
    ensures docs != [] ==>
              var front, last := docs[..|docs| - 1], docs[|docs| - 1];
              FilterCrds(docs) == FilterCrds(front) + (if IsCrdResource(last) then [last] else [])
  {
    if docs != [] {
      FilterCrdsExact(docs[1..]);
      assert docs == [docs[0]] + docs[1..];
      if |docs| > 1 {
        var n := |docs| - 1;
        assert docs[1..][..n - 1] == docs[..n][1..];
      }
    }
  }

  /** A dry run leaves the cluster alone; an installation then succeeds if the chart can be installed and rendered. */
  lemma DryRunChangesNothing(c: Cluster, cmd: Command)
    requires cmd.dryRun
    ensures RunCommand(c, cmd) == c
    ensures cmd.Install? ==> (RunInstall(c, cmd).1.Ok? <==> !cmd.chart.library && cmd.stop != AtRender)
    ensures cmd.Uninstall? ==> RunUninstall(c, cmd).1.Ok?
  {
  }

  /** The definitions of a chart. */
  ghost function ChartCrds(chart: Chart): set<Resource> {
    set d | d in chart.withCrds && d.Doc? && d.group == "apiextensions.k8s.io" && d.kind == "CustomResourceDefinition"
      :: Resource(d.kind, d.name)
  }

  lemma ChartCrdsExact(chart: Chart)
    ensures ResourcesOf(FilterCrds(chart.withCrds)) == ChartCrds(chart)
    ensures FilterCrds(chart.withCrds) == [] <==> ChartCrds(chart) == {}
    ensures forall c: Cluster :: AnyExists(c, FilterCrds(chart.withCrds)) <==> ChartCrds(chart) * c.resources != {}
  {
    var crds := FilterCrds(chart.withCrds);
    FilterCrdsExact(chart.withCrds);
    if crds != [] {
      assert crds[0] in crds && ResourceOf(crds[0]) in ResourcesOf(crds);
    }
    forall c: Cluster ensures AnyExists(c, crds) <==> ResourcesOf(crds) * c.resources != {} {
      if AnyExists(c, crds) {
        var d :| d in crds && d.Doc? && ResourceOf(d) in c.resources;
        assert ResourceOf(d) in ResourcesOf(crds) * c.resources;
      }
      if ResourcesOf(crds) * c.resources != {} {
        var r :| r in ResourcesOf(crds) * c.resources;
        var d :| d in crds && d.Doc? && ResourceOf(d) == r;
      }
    }
  }

  /**
   * An installation succeeds exactly if the chart can be installed, is well-formed and contains
   * definitions, none of which exists, no release is recorded and nothing stops it; then every
   * rendered resource is present and the release records everything but the definitions.
   */
  lemma InstallSucceedsIff(c: Cluster, cmd: Command)
    requires cmd.Install? && !cmd.dryRun
    ensures var (c', r) := RunInstall(c, cmd);
            && (r.Ok? <==> && !cmd.chart.library && (forall d :: d in cmd.chart.withCrds ==> d.Doc?)
                           && ChartCrds(cmd.chart) != {} && ChartCrds(cmd.chart) * c.resources == {}
                           && c.release.None? && cmd.stop == Never)
            && (r.Ok? ==> && c'.release == Some(Release(Deployed, cmd.chart.withoutCrds))
                          && c'.resources == c.resources + ChartCrds(cmd.chart) + ResourcesOf(cmd.chart.withoutCrds))
  {
    ChartCrdsExact(cmd.chart);
  }

  /**
   * What a failed installation leaves: nothing new before the definitions are created, no release
   * before Helm installs, and after a failure of Helm a release that is gone exactly if the command
   * waited and the rollback deleted everything.
   */
  lemma FailedInstallLeaves(c: Cluster, cmd: Command)
    requires cmd.Install? && RunInstall(c, cmd).1.Err?
    ensures var (c', r) := RunInstall(c, cmd);
            && (r.error != CreateFailed && r.error != HelmFailed ==> c' == c)
            && (r.error == CreateFailed ==> c'.release == c.release)
            && (r.error == HelmFailed && c.release.None? ==>
                  cmd.stop.AtHelm? && (c'.release.None? <==> cmd.wait && cmd.stop.spared == {}))
            && (r.error == ExistingCrds ==> ChartCrds(cmd.chart) * c.resources != {})
            && (r.error == NoCrds ==> ChartCrds(cmd.chart) == {})
            && c.resources - ResourcesOf(cmd.chart.withoutCrds) <= c'.resources
            && c'.resources <= c.resources + ChartCrds(cmd.chart) + ResourcesOf(cmd.chart.withoutCrds)
  {
    ChartCrdsExact(cmd.chart);
  }

  /** No installation, however it ends, removes a definition. */
  lemma InstallKeepsCrds(c: Cluster, cmd: Command)
    requires cmd.Install? && RendersCrdsOnRequest(cmd.chart)
    ensures CrdsOf(c) <= CrdsOf(RunInstall(c, cmd).0)
  {
    var c' := RunInstall(c, cmd).0;
    forall r | r in CrdsOf(c) ensures r in c'.resources {
      assert r !in Deleted(cmd.chart.withoutCrds);
    }
  }

  /** If any definition of the chart is in the cluster, an installation changes nothing, and succeeds only as a dry run. */
  lemma InstallOntoExistingChangesNothing(c: Cluster, cmd: Command)
    requires cmd.Install? && AnyExists(c, FilterCrds(cmd.chart.withCrds))
    ensures var (c', r) := RunInstall(c, cmd); c' == c && (r.Ok? ==> cmd.dryRun)
  {
  }

  /** After a successful installation the definitions are there, and even Helm's own uninstall would leave them. */
  lemma InstalledCrdsOutliveRelease(c: Cluster, cmd: Command, spared: set<Resource>)
    requires cmd.Install? && RendersCrdsOnRequest(cmd.chart) && !cmd.dryRun && RunInstall(c, cmd).1.Ok?
    ensures var c' := RunInstall(c, cmd).0;
            && c'.release.Some? && c'.release.value.status == Deployed
            && (forall d :: d in cmd.chart.withCrds && IsCrdResource(d) ==> ResourceOf(d) in CrdsOf(c'))
            && CrdsOf(HelmUninstall(c', true, spared)) == CrdsOf(c')
  {
    var c' := RunInstall(c, cmd).0;
    FilterCrdsExact(cmd.chart.withCrds);
    forall d | d in cmd.chart.withCrds && IsCrdResource(d) ensures ResourceOf(d) in CrdsOf(c') {
      assert d in FilterCrds(cmd.chart.withCrds);
      assert ResourceOf(d) in ResourcesOf(FilterCrds(cmd.chart.withCrds));
    }
    forall r | r in CrdsOf(c') ensures r !in Deleted(cmd.chart.withoutCrds) {
    }
  }

  /* ---------- Any sequence of commands ---------- */

  function RunCommand(c: Cluster, cmd: Command): Cluster {
    if cmd.Install? then RunInstall(c, cmd).0 else RunUninstall(c, cmd).0
  }

  function RunAll(c: Cluster, cmds: seq<Command>): Cluster
    decreases |cmds|
  {
    if cmds == [] then c else RunAll(RunCommand(c, cmds[0]), cmds[1..])
  }

  ghost predicate Assumed(cmd: Command) {
    match cmd
    case Install(chart, _, _, _) => RendersCrdsOnRequest(chart)
    case Uninstall(_, _, _, stores, _, _) => stores
  }

  /**
   * From any cluster, over any sequence of installations and uninstallations that fail wherever they
   * may, no definition that was once in the cluster is removed.
   */
  lemma {:induction false} CrdsAreNeverRemoved(c: Cluster, cmds: seq<Command>)
    requires forall cmd :: cmd in cmds ==> Assumed(cmd)
    ensures CrdsOf(c) <= CrdsOf(RunAll(c, cmds))
    decreases |cmds|
  {
    if cmds != [] {
      var cmd := cmds[0];
      assert cmd in cmds;
      if cmd.Install? {
        InstallKeepsCrds(c, cmd);
      } else {
        forall r | r in CrdsOf(c) ensures r in CrdsOf(RunCommand(c, cmd)) {
          UninstallLosesCrdIff(c, cmd, r);
        }
      }
      CrdsAreNeverRemoved(RunCommand(c, cmd), cmds[1..]);
    }
  }

  /* ---------- The program ---------- */

  method FilterCrdResources(resources: seq<Doc>) returns (filtered: seq<Doc>)
    ensures filtered == FilterCrds(resources)
  {
    filtered := [];
    var i := 0;
    while i < |resources|
      invariant i <= |resources|
      invariant FilterCrds(resources) == filtered + FilterCrds(resources[i..])
    {
      if IsCrdResource(resources[i]) {
        filtered := filtered + [resources[i]];
      }
      i := i + 1;
    }
  }

  /** The cluster behind the Helm configuration. */
  class Target {
    var c: Cluster

    constructor (c: Cluster)
      ensures this.c == c
    {
      this.c := c;
    }

    method FetchResources(resources: seq<Doc>) returns (detected: seq<Doc>)
      requires forall d :: d in resources ==> d.Doc?
      ensures forall d :: d in detected <==> d in resources && ResourceOf(d) in c.resources
    {
      detected := [];
      var i := 0;
      while i < |resources|
        invariant i <= |resources|
        invariant forall d :: d in detected <==> d in resources[..i] && ResourceOf(d) in c.resources
      {
        assert resources[..i + 1] == resources[..i] + [resources[i]];
        if ResourceOf(resources[i]) in c.resources {
          detected := detected + [resources[i]];
        }
        i := i + 1;
      }
      assert resources[..i] == resources;
    }

    method Install(cmd: Command) returns (r: Result<(), InstallError>)
      requires cmd.Install?
      modifies this
      ensures (c, r) == RunInstall(old(c), cmd)
      ensures cmd.dryRun ==> c == old(c)
    {
      var chart, stop := cmd.chart, cmd.stop;
      if chart.library {
        return Err(NotInstallable);
      }
      var installCrds := true;
      if stop == AtRender {
        return Err(RenderFailed);
      }
      var rendered := if installCrds then chart.withCrds else chart.withoutCrds;
      if cmd.dryRun {
        return Ok(());
      }
      if exists d :: d in rendered && d.Malformed? {
        return Err(BadChart);
      }
      var crds := FilterCrdResources(rendered);
      FilterCrdsExact(rendered);
      if |crds| == 0 {
        return Err(NoCrds);
      }
      if stop == AtFetch {
        return Err(FetchFailed);
      }
      var originalCrds := FetchResources(crds);
      if |originalCrds| > 0 {
        assert originalCrds[0] in originalCrds;
        return Err(ExistingCrds);
      }
      if stop.AtCreate? {
        c := c.(resources := c.resources + stop.created * ResourcesOf(crds));
        return Err(CreateFailed);
      }
      c := Create(c, crds);
      if stop == AfterCreate {
        return Err(CreateFailed);
      }
      installCrds := false;
      rendered := if installCrds then chart.withCrds else chart.withoutCrds;
      var res := HelmInstall(c, rendered, cmd.wait, stop);
      c, r := res.0, res.1;
    }
  }

  /** The uninstall command: the pass over the release unless this is a dry run, then Helm's uninstall. */
  method UninstallRelease(target: Target, releases: Releases, cmd: Command, order: seq<nat>, collected: seq<nat>)
    returns (r: Result<(), PassError>)
    requires cmd.Uninstall? && releases.last == target.c.release
    requires releases.last.Some? ==> IterationOrder(order, |releases.last.value.docs|)
    requires releases.last.Some? ==> IterationOrder(collected, |releases.last.value.docs|)
    modifies target, releases
    ensures (target.c, r) == RunUninstall(old(target.c), cmd)
    ensures cmd.dryRun ==> target.c == old(target.c) && r == Ok(())
    ensures releases.last == target.c.release
  {
    if cmd.dryRun {
      return Ok(());
    }
    var pass := AddCrdAnnotations(releases, cmd.reachable, cmd.validName, order, collected, cmd.stores);
    if pass.Err? {
      return Err(pass.error);
    }
    target.c := HelmUninstall(target.c.(release := releases.last), cmd.completes, cmd.spared);
    releases.last := target.c.release;
    return Ok(());
  }
}
