// translators/kubernetes: health, alerts and available operations of a namespace.

module Kubernetes {
  import opened Order
  import opened Text
  import opened Anf

  datatype Pod = Pod(name: string, phase: string, memPercent: int, restarts24h: int)

  datatype Deployment = Deployment(name: string, replicas: int, readyReplicas: int, image: string, strategy: string,
                                   cpuPercent: int, memPercent: int, pods: seq<Pod>, latestImage: string)

  datatype Permissions = Permissions(canScale: bool, canRollout: bool, canRestart: bool, canLogs: bool)

  datatype NamespaceView = NamespaceView(deployments: seq<Deployment>, permissions: Permissions)

  function SeverityRank(s: string): nat
  {
    if s == "critical" then 0 else if s == "warning" then 1 else if s == "info" then 2 else 3
  }

  predicate BySeverity(a: Alert, b: Alert)
  {
    SeverityRank(a.severity) <= SeverityRank(b.severity)
  }

  predicate Outdated(dep: Deployment)
  {
    dep.latestImage != "" && dep.latestImage != dep.image
  }

  // ---- Contributions ----------------------------------------------------------------

  function MemAlert(dep: Deployment): Alert
  {
    Alert("warning", "deployment", dep.name, "mem:" + SignedDecimal(dep.memPercent) + "%", map["threshold" := "80%"])
  }

  function CpuAlert(dep: Deployment): Alert
  {
    Alert("warning", "deployment", dep.name, "cpu:" + SignedDecimal(dep.cpuPercent) + "%", map["threshold" := "80%"])
  }

  function ReplicasAlert(dep: Deployment): Alert
  {
    Alert("critical", "deployment", dep.name,
      "replicas:" + SignedDecimal(dep.readyReplicas) + "/" + SignedDecimal(dep.replicas), map[])
  }

  function ImageAlert(dep: Deployment): Alert
  {
    Alert("info", "deployment", dep.name, "image-outdated", map["current" := dep.image, "latest" := dep.latestImage])
  }

  function RestartAlert(pod: Pod): Alert
  {
    Alert("warning", "pod", pod.name, "restarts:" + SignedDecimal(pod.restarts24h) + "/24h", map["threshold" := "2"])
  }

  function PodMemAlert(pod: Pod): Alert
  {
    Alert("critical", "pod", pod.name, "mem:" + SignedDecimal(pod.memPercent) + "%", map["threshold" := "90%"])
  }

  function When<T>(c: bool, x: T): seq<T>
  {
    if c then [x] else []
  }

  function PodAlerts(pod: Pod): seq<Alert>
  {
    When(pod.restarts24h > 2, RestartAlert(pod)) + When(pod.memPercent > 90, PodMemAlert(pod))
  }

  function AllPodAlerts(pods: seq<Pod>): seq<Alert>
  {
    if pods == [] then [] else AllPodAlerts(pods[..|pods| - 1]) + PodAlerts(pods[|pods| - 1])
  }

  // What one deployment and its pods contribute.
  function AlertsOf(dep: Deployment): seq<Alert>
  {
    When(dep.memPercent > 80, MemAlert(dep)) + When(dep.cpuPercent > 80, CpuAlert(dep)) +
    When(dep.readyReplicas < dep.replicas, ReplicasAlert(dep)) + When(Outdated(dep), ImageAlert(dep)) +
    AllPodAlerts(dep.pods)
  }

  function Contributed(deps: seq<Deployment>): seq<Alert>
  {
    if deps == [] then [] else Contributed(deps[..|deps| - 1]) + AlertsOf(deps[|deps| - 1])
  }

  lemma BySeverityIsTotalPreorder()
    ensures TotalPreorder(BySeverity)
  {
  }

  method DeriveAlerts(view: NamespaceView) returns (alerts: seq<Alert>)
    ensures SortedBy(alerts, BySeverity)
    ensures multiset(alerts) == multiset(Contributed(view.deployments))
  {
    alerts := CollectAlerts(view.deployments);
    BySeverityIsTotalPreorder();
    alerts := SortSlice(alerts, BySeverity);
  }

  method CollectAlerts(deps: seq<Deployment>) returns (alerts: seq<Alert>)
    ensures alerts == Contributed(deps)
  {
    alerts := [];
    for i := 0 to |deps|
      invariant alerts == Contributed(deps[..i])
    {
      var more := AlertsForDeployment(deps[i]);
      ContributedNext(deps, i);
      alerts := alerts + more;
    }
    assert deps[..|deps|] == deps;
  }

  lemma ContributedNext(deps: seq<Deployment>, i: nat)
    requires i < |deps|
    ensures Contributed(deps[..i + 1]) == Contributed(deps[..i]) + AlertsOf(deps[i])
  {
    assert deps[..i + 1][..i] == deps[..i];
  }

  method AlertsForDeployment(dep: Deployment) returns (alerts: seq<Alert>)
    ensures alerts == AlertsOf(dep)
  {
    alerts := [];
    if dep.memPercent > 80 {
      alerts := alerts + [MemAlert(dep)];
    }
    ghost var a1 := alerts;
    assert a1 == When(dep.memPercent > 80, MemAlert(dep));
    if dep.cpuPercent > 80 {
      alerts := alerts + [CpuAlert(dep)];
    }
    ghost var a2 := alerts;
    assert a2 == a1 + When(dep.cpuPercent > 80, CpuAlert(dep));
    if dep.readyReplicas < dep.replicas {
      alerts := alerts + [ReplicasAlert(dep)];
    }
    ghost var a3 := alerts;
    assert a3 == a2 + When(dep.readyReplicas < dep.replicas, ReplicasAlert(dep));
    if dep.latestImage != "" && dep.latestImage != dep.image {
      alerts := alerts + [ImageAlert(dep)];
    }
    assert alerts == a3 + When(Outdated(dep), ImageAlert(dep));
    var pods := AlertsForPods(dep.pods);
    alerts := alerts + pods;
  }

  method AlertsForPods(pods: seq<Pod>) returns (alerts: seq<Alert>)
    ensures alerts == AllPodAlerts(pods)
  {
    alerts := [];
    for i := 0 to |pods|
      invariant alerts == AllPodAlerts(pods[..i])
    {
      assert pods[..i + 1][..i] == pods[..i];
      ghost var before := alerts;
      if pods[i].restarts24h > 2 {
        alerts := alerts + [RestartAlert(pods[i])];
      }
      if pods[i].memPercent > 90 {
        alerts := alerts + [PodMemAlert(pods[i])];
      }
      assert alerts == before + PodAlerts(pods[i]);
    }
    assert pods[..|pods|] == pods;
  }

  // ---- Operations -------------------------------------------------------------------

  function Scale(dep: Deployment): Operation
  {
    Operation("scale", "deployment", dep.name, map["current" := SignedDecimal(dep.replicas), "range" := "1-10"])
  }

  function Rollout(dep: Deployment): Operation
  {
    Operation("rollout", "deployment", dep.name, map["to" := dep.latestImage, "strategy" := dep.strategy])
  }

  function Restart(dep: Deployment): Operation
  {
    Operation("restart", "deployment", dep.name, map[])
  }

  function Logs(pod: Pod): Operation
  {
    Operation("logs", "pod", pod.name, map["since" := "1h"])
  }

  function LogOperations(pods: seq<Pod>, allowed: bool): seq<Operation>
  {
    if pods == [] then [] else LogOperations(pods[..|pods| - 1], allowed) + When(allowed, Logs(pods[|pods| - 1]))
  }

  function OperationsOf(dep: Deployment, p: Permissions): seq<Operation>
  {
    When(p.canScale, Scale(dep)) + When(p.canRollout && Outdated(dep), Rollout(dep)) +
    When(p.canRestart, Restart(dep)) + LogOperations(dep.pods, p.canLogs)
  }

  function Offered(deps: seq<Deployment>, p: Permissions): seq<Operation>
  {
    if deps == [] then [] else Offered(deps[..|deps| - 1], p) + OperationsOf(deps[|deps| - 1], p)
  }

  lemma OfferedNext(deps: seq<Deployment>, i: nat, p: Permissions)
    requires i < |deps|
    ensures Offered(deps[..i + 1], p) == Offered(deps[..i], p) + OperationsOf(deps[i], p)
  {
    assert deps[..i + 1][..i] == deps[..i];
  }

  method DeriveActions(view: NamespaceView) returns (actions: seq<Operation>)
    ensures actions == Offered(view.deployments, view.permissions)
  {
    actions := [];
    var deps := view.deployments;
    for i := 0 to |deps|
      invariant actions == Offered(deps[..i], view.permissions)
    {
      var more := ActionsForDeployment(deps[i], view.permissions);
      OfferedNext(deps, i, view.permissions);
      actions := actions + more;
    }
    assert deps[..|deps|] == deps;
  }

  method ActionsForDeployment(dep: Deployment, p: Permissions) returns (actions: seq<Operation>)
    ensures actions == OperationsOf(dep, p)
  {
    actions := [];
    if p.canScale {
      actions := actions + [Scale(dep)];
    }
    ghost var a1 := actions;
    assert a1 == When(p.canScale, Scale(dep));
    if p.canRollout && dep.latestImage != "" && dep.latestImage != dep.image {
      actions := actions + [Rollout(dep)];
    }
    ghost var a2 := actions;
    assert a2 == a1 + When(p.canRollout && Outdated(dep), Rollout(dep));
    if p.canRestart {
      actions := actions + [Restart(dep)];
    }
    assert actions == a2 + When(p.canRestart, Restart(dep));
    var logs := LogsForPods(dep.pods, p.canLogs);
    actions := actions + logs;
  }

  method LogsForPods(pods: seq<Pod>, allowed: bool) returns (actions: seq<Operation>)
    ensures actions == LogOperations(pods, allowed)
  {
    actions := [];
    for i := 0 to |pods|
      invariant actions == LogOperations(pods[..i], allowed)
    {
      assert pods[..i + 1][..i] == pods[..i];
      if allowed {
        actions := actions + [Logs(pods[i])];
      }
    }
    assert pods[..|pods|] == pods;
  }

  // ---- Health -----------------------------------------------------------------------

  predicate PodTroubled(pod: Pod)
  {
    pod.restarts24h > 2 || pod.memPercent > 90
  }

  function Health(dep: Deployment): string
  {
    if dep.readyReplicas == 0 && dep.replicas > 0 then "failing"
    else if dep.readyReplicas < dep.replicas then "degraded"
    else if dep.memPercent > 80 || dep.cpuPercent > 80 then "degraded"
    else if exists pod :: pod in dep.pods && PodTroubled(pod) then "degraded"
    else "healthy"
  }

  method DeploymentStatus(dep: Deployment) returns (status: string)
    ensures status == Health(dep)
  {
    if dep.readyReplicas == 0 && dep.replicas > 0 {
      return "failing";
    }
    if dep.readyReplicas < dep.replicas {
      return "degraded";
    }
    if dep.memPercent > 80 || dep.cpuPercent > 80 {
      return "degraded";
    }
    for i := 0 to |dep.pods|
      invariant forall k :: 0 <= k < i ==> !PodTroubled(dep.pods[k])
    {
      if dep.pods[i].restarts24h > 2 || dep.pods[i].memPercent > 90 {
        assert dep.pods[i] in dep.pods && PodTroubled(dep.pods[i]);
        return "degraded";
      }
    }
    return "healthy";
  }

  predicate Pressing(a: Alert)
  {
    a.severity == "critical" || a.severity == "warning"
  }

  lemma PodAlertFacts(pod: Pod)
    ensures forall a :: a in PodAlerts(pod) ==> a.typ == "pod" && Pressing(a) && a.message != "image-outdated"
    ensures PodTroubled(pod) <==> PodAlerts(pod) != []
  {
    assert RestartAlert(pod).message[0] == 'r' && PodMemAlert(pod).message[0] == 'm' && "image-outdated"[0] == 'i';
  }

  lemma {:induction false} AllPodAlertFacts(pods: seq<Pod>)
    ensures forall a :: a in AllPodAlerts(pods) ==> a.typ == "pod" && Pressing(a) && a.message != "image-outdated"
    ensures AllPodAlerts(pods) != [] <==> exists pod :: pod in pods && PodTroubled(pod)
  {
    if pods != [] {
      var init, last := pods[..|pods| - 1], pods[|pods| - 1];
      assert pods == init + [last];
      AllPodAlertFacts(init);
      PodAlertFacts(last);
      if pod :| pod in pods && PodTroubled(pod) {
        assert pod in init || pod == last;
      }
      if pod :| pod in init && PodTroubled(pod) {
        assert pod in pods;
      }
      assert last in pods;
    }
  }

  // A deployment is healthy exactly when it and its pods contribute nothing critical or warning.
  lemma HealthyIffQuiet(dep: Deployment)
    ensures Health(dep) == "healthy" <==> forall a :: a in AlertsOf(dep) ==> !Pressing(a)
  {
    AllPodAlertFacts(dep.pods);
    if AllPodAlerts(dep.pods) != [] {
      var a := AllPodAlerts(dep.pods)[0];
      assert a in AllPodAlerts(dep.pods) && a in AlertsOf(dep);
    }
    if dep.memPercent > 80 {
      assert MemAlert(dep) in AlertsOf(dep) && Pressing(MemAlert(dep));
    }
    if dep.cpuPercent > 80 {
      assert CpuAlert(dep) in AlertsOf(dep) && Pressing(CpuAlert(dep));
    }
    if dep.readyReplicas < dep.replicas {
      assert ReplicasAlert(dep) in AlertsOf(dep) && Pressing(ReplicasAlert(dep));
    }
  }

  // A deployment is failing exactly when nothing of it is ready and it raises a critical alert
  // of its own (the pods' critical alerts are of type "pod").
  lemma FailingIffCritical(dep: Deployment)
    ensures Health(dep) == "failing" <==>
            dep.readyReplicas == 0 &&
            exists a :: a in AlertsOf(dep) && a.typ == "deployment" && a.severity == "critical"
  {
    AllPodAlertFacts(dep.pods);
    if dep.readyReplicas < dep.replicas {
      assert ReplicasAlert(dep) in AlertsOf(dep);
    }
  }

  // ---- Across the namespace ----------------------------------------------------------

  lemma {:induction false} ContributedMembers(deps: seq<Deployment>, a: Alert)
    ensures a in Contributed(deps) <==> exists dep :: dep in deps && a in AlertsOf(dep)
  {
    if deps != [] {
      var init, last := deps[..|deps| - 1], deps[|deps| - 1];
      assert deps == init + [last];
      ContributedMembers(init, a);
      if a in AlertsOf(last) {
        assert last in deps;
      }
      if a in Contributed(init) {
        var dep :| dep in init && a in AlertsOf(dep);
        assert dep in deps;
      }
    }
  }

  lemma {:induction false} LogsAreLogs(pods: seq<Pod>, allowed: bool)
    ensures forall o :: o in LogOperations(pods, allowed) ==> o.verb == "logs"
  {
    if pods != [] {
      LogsAreLogs(pods[..|pods| - 1], allowed);
    }
  }

  lemma {:induction false} OfferedMembers(deps: seq<Deployment>, p: Permissions, o: Operation)
    ensures o in Offered(deps, p) <==> exists dep :: dep in deps && o in OperationsOf(dep, p)
  {
    if deps != [] {
      var init, last := deps[..|deps| - 1], deps[|deps| - 1];
      assert deps == init + [last];
      OfferedMembers(init, p, o);
      if o in OperationsOf(last, p) {
        assert last in deps;
      }
      if o in Offered(init, p) {
        var dep :| dep in init && o in OperationsOf(dep, p);
        assert dep in deps;
      }
    }
  }

  lemma RolloutOfOne(dep: Deployment, p: Permissions, o: Operation)
    requires o.verb == "rollout"
    ensures o in OperationsOf(dep, p) <==> p.canRollout && Outdated(dep) && o == Rollout(dep)
  {
    LogsAreLogs(dep.pods, p.canLogs);
  }

  lemma ImageAlertOfOne(dep: Deployment, a: Alert)
    requires a.message == "image-outdated"
    ensures a in AlertsOf(dep) <==> Outdated(dep) && a == ImageAlert(dep)
  {
    assert "image-outdated"[0] == 'i';
    assert MemAlert(dep).message[0] == 'm' && CpuAlert(dep).message[0] == 'c' && ReplicasAlert(dep).message[0] == 'r';
    AllPodAlertFacts(dep.pods);
  }

  predicate IsRollout(o: Operation, name: string, to: string)
  {
    o.verb == "rollout" && o.name == name && "to" in o.params && o.params["to"] == to
  }

  predicate ReportsOutdated(a: Alert, name: string, latest: string)
  {
    a.message == "image-outdated" && a.name == name && "latest" in a.props && a.props["latest"] == latest
  }

  lemma RolloutIsReported(view: NamespaceView, o: Operation, name: string, to: string) returns (a: Alert)
    requires o in Offered(view.deployments, view.permissions) && IsRollout(o, name, to)
    ensures view.permissions.canRollout && a in Contributed(view.deployments) && ReportsOutdated(a, name, to)
  {
    OfferedMembers(view.deployments, view.permissions, o);
    var dep :| dep in view.deployments && o in OperationsOf(dep, view.permissions);
    RolloutOfOne(dep, view.permissions, o);
    a := ImageAlert(dep);
    ImageAlertOfOne(dep, a);
    ContributedMembers(view.deployments, a);
  }

  lemma ReportedIsOffered(view: NamespaceView, a: Alert, name: string, to: string) returns (o: Operation)
    requires view.permissions.canRollout && a in Contributed(view.deployments) && ReportsOutdated(a, name, to)
    ensures o in Offered(view.deployments, view.permissions) && IsRollout(o, name, to)
  {
    var dep := ReportingDeployment(view.deployments, a, name, to);
    o := Rollout(dep);
    RolloutOfOne(dep, view.permissions, o);
    OfferedMembers(view.deployments, view.permissions, o);
  }

  lemma ReportingDeployment(deps: seq<Deployment>, a: Alert, name: string, to: string) returns (dep: Deployment)
    requires a in Contributed(deps) && ReportsOutdated(a, name, to)
    ensures dep in deps && Outdated(dep) && dep.name == name && dep.latestImage == to
  {
    ContributedMembers(deps, a);
    dep :| dep in deps && a in AlertsOf(dep);
    ImageAlertOfOne(dep, a);
  }

  // In the emitted lists a rollout is offered for a name exactly when rollouts are permitted and
  // the image of a deployment of that name is reported outdated, to the image so reported.
  lemma RolloutIffOutdated(view: NamespaceView, alerts: seq<Alert>, name: string, to: string)
    requires multiset(alerts) == multiset(Contributed(view.deployments))
    ensures (exists o :: o in Offered(view.deployments, view.permissions) && IsRollout(o, name, to)) <==>
            view.permissions.canRollout && (exists a :: a in alerts && ReportsOutdated(a, name, to))
  {
    var contributed := Contributed(view.deployments);
    SameElements(alerts, contributed);
    if o :| o in Offered(view.deployments, view.permissions) && IsRollout(o, name, to) {
      var a := RolloutIsReported(view, o, name, to);
      assert a in Elems(contributed) && a in Elems(alerts);
    }
    if view.permissions.canRollout {
      if a :| a in alerts && ReportsOutdated(a, name, to) {
        assert a in Elems(alerts) && a in Elems(contributed);
        var o := ReportedIsOffered(view, a, name, to);
      }
    }
  }

  lemma QuietAlertsAreImages(dep: Deployment, a: Alert)
    requires a in AlertsOf(dep) && !Pressing(a)
    ensures a == ImageAlert(dep) && Outdated(dep)
  {
    AllPodAlertFacts(dep.pods);
  }

  lemma QuietContribution(view: NamespaceView, a: Alert) returns (dep: Deployment)
    requires a in Contributed(view.deployments) && !Pressing(a)
    ensures dep in view.deployments && Outdated(dep) && a == ImageAlert(dep)
  {
    ContributedMembers(view.deployments, a);
    dep :| dep in view.deployments && a in AlertsOf(dep);
    QuietAlertsAreImages(dep, a);
  }

  lemma RankOrder(alerts: seq<Alert>, i: nat, j: nat)
    requires SortedBy(alerts, BySeverity) && i < |alerts| && j < |alerts|
    requires SeverityRank(alerts[i].severity) < SeverityRank(alerts[j].severity)
    ensures i < j
  {
    assert j < i ==> BySeverity(alerts[j], alerts[i]);
  }

  // Every deployment's pressing alerts are emitted ahead of all others, which report images.
  lemma PressingFirst(view: NamespaceView, alerts: seq<Alert>, i: nat, j: nat) returns (dep: Deployment)
    requires SortedBy(alerts, BySeverity) && multiset(alerts) == multiset(Contributed(view.deployments))
    requires i < |alerts| && j < |alerts| && Pressing(alerts[i]) && !Pressing(alerts[j])
    ensures i < j && dep in view.deployments && Outdated(dep) && alerts[j] == ImageAlert(dep)
  {
    var contributed := Contributed(view.deployments);
    SameElements(alerts, contributed);
    assert alerts[j] in Elems(alerts) && alerts[j] in Elems(contributed);
    dep := QuietContribution(view, alerts[j]);
    RankOrder(alerts, i, j);
  }
}
