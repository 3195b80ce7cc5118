// What the alerts and operations of a namespace say: every measured excess is reported once measured,
// with its number, and every operation is offered exactly where it is permitted.

module Reports {
  import opened Order
  import opened Text
  import opened Manifest
  import opened Anf
  import opened Kubernetes

  // ---- Numbers in messages ----------------------------------------------------------

  function ReadSigned(s: string): Option<int>
  {
    if s != "" && s[0] == '-' then
      (if ReadDecimal(s[1..]) < 0 then None else Some(-ReadDecimal(s[1..])))
    else if ReadDecimal(s) < 0 then None
    else Some(ReadDecimal(s))
  }

  lemma SignedReadsBack(n: int)
    ensures ReadSigned(SignedDecimal(n)) == Some(n)
    ensures '/' !in SignedDecimal(n)
  {
    ReadDecimalBack(if n < 0 then -n else n);
    if n < 0 {
      assert SignedDecimal(n)[1..] == Decimal(-n);
    } else {
      assert SignedDecimal(n)[0] in Decimal(n);
    }
  }

  // The message is a number between two fixed texts.
  ghost predicate Says(message: string, before: string, n: int, after: string)
  {
    exists t :: message == before + t + after && ReadSigned(t) == Some(n)
  }

  lemma SaysOne(m: int, before: string, after: string, n: int)
    ensures Says(before + SignedDecimal(m) + after, before, n, after) <==> m == n
  {
    SignedReadsBack(m);
    var message := before + SignedDecimal(m) + after;
    if t :| message == before + t + after && ReadSigned(t) == Some(n) {
      assert |t| == |SignedDecimal(m)|;
      assert t == message[|before|..|before| + |t|] == SignedDecimal(m);
    }
  }

  // ---- The alerts of one deployment -------------------------------------------------

  // A deployment's own alerts are told apart by how their messages begin.
  lemma OwnAlerts(dep: Deployment, a: Alert)
    requires a.typ == "deployment"
    ensures a in AlertsOf(dep) <==>
            || (dep.memPercent > 80 && a == MemAlert(dep))
            || (dep.cpuPercent > 80 && a == CpuAlert(dep))
            || (dep.readyReplicas < dep.replicas && a == ReplicasAlert(dep))
            || (Outdated(dep) && a == ImageAlert(dep))
  {
    AllPodAlertFacts(dep.pods);
  }

  lemma {:induction false} PodAlertsOf(pods: seq<Pod>, a: Alert)
    ensures a in AllPodAlerts(pods) <==> exists pod :: pod in pods && a in PodAlerts(pod)
  {
    if pods != [] {
      var init, last := pods[..|pods| - 1], pods[|pods| - 1];
      assert pods == init + [last];
      PodAlertsOf(init, a);
    }
  }

  lemma PodsAlerts(dep: Deployment, a: Alert)
    requires a.typ == "pod"
    ensures a in AlertsOf(dep) <==> exists pod :: pod in dep.pods && a in PodAlerts(pod)
  {
    PodAlertsOf(dep.pods, a);
  }

  lemma Beginnings(dep: Deployment)
    ensures MemAlert(dep).message[0] == 'm' && CpuAlert(dep).message[0] == 'c'
    ensures ReplicasAlert(dep).message[0] == 'r' && ImageAlert(dep).message[0] == 'i'
  {
  }

  // ---- What is reported -------------------------------------------------------------

  // An alert about something of this kind and name.
  ghost predicate About(a: Alert, severity: string, typ: string, name: string)
  {
    a.severity == severity && a.typ == typ && a.name == name
  }

  // A warning gives a deployment's memory exactly when that is above 80 percent.
  lemma MemoryReportedIff(deps: seq<Deployment>, name: string, n: int)
    ensures (exists a :: a in Contributed(deps) && About(a, "warning", "deployment", name) &&
                         Says(a.message, "mem:", n, "%") && a.props == map["threshold" := "80%"]) <==>
            (exists dep :: dep in deps && dep.name == name && dep.memPercent == n > 80)
  {
    if a :| a in Contributed(deps) && About(a, "warning", "deployment", name) && Says(a.message, "mem:", n, "%") {
      ContributedMembers(deps, a);
      var dep :| dep in deps && a in AlertsOf(dep);
      OwnAlerts(dep, a);
      Beginnings(dep);
      assert a.message[0] == 'm';
      SaysOne(dep.memPercent, "mem:", "%", n);
    }
    if dep :| dep in deps && dep.name == name && dep.memPercent == n > 80 {
      OwnAlerts(dep, MemAlert(dep));
      ContributedMembers(deps, MemAlert(dep));
      SaysOne(n, "mem:", "%", n);
    }
  }

  lemma CpuReportedIff(deps: seq<Deployment>, name: string, n: int)
    ensures (exists a :: a in Contributed(deps) && About(a, "warning", "deployment", name) &&
                         Says(a.message, "cpu:", n, "%") && a.props == map["threshold" := "80%"]) <==>
            (exists dep :: dep in deps && dep.name == name && dep.cpuPercent == n > 80)
  {
    if a :| a in Contributed(deps) && About(a, "warning", "deployment", name) && Says(a.message, "cpu:", n, "%") {
      ContributedMembers(deps, a);
      var dep :| dep in deps && a in AlertsOf(dep);
      OwnAlerts(dep, a);
      Beginnings(dep);
      assert a.message[0] == 'c';
      SaysOne(dep.cpuPercent, "cpu:", "%", n);
    }
    if dep :| dep in deps && dep.name == name && dep.cpuPercent == n > 80 {
      OwnAlerts(dep, CpuAlert(dep));
      ContributedMembers(deps, CpuAlert(dep));
      SaysOne(n, "cpu:", "%", n);
    }
  }

  ghost predicate SaysRatio(message: string, n: int, m: int)
  {
    exists t, u :: message == "replicas:" + t + "/" + u && '/' !in t &&
                   ReadSigned(t) == Some(n) && ReadSigned(u) == Some(m)
  }

  lemma RatioOne(r: int, s: int, n: int, m: int)
    ensures SaysRatio("replicas:" + SignedDecimal(r) + "/" + SignedDecimal(s), n, m) <==> r == n && s == m
  {
    SignedReadsBack(r);
    SignedReadsBack(s);
    var t, u := SignedDecimal(r), SignedDecimal(s);
    if x, y :| "replicas:" + t + "/" + u == "replicas:" + x + "/" + y && '/' !in x &&
               ReadSigned(x) == Some(n) && ReadSigned(y) == Some(m) {
      SameParts("replicas:", t, u, x, y);
    }
  }

  lemma SameParts(p: string, t: string, u: string, x: string, y: string)
    requires p + t + "/" + u == p + x + "/" + y && '/' !in t && '/' !in x
    ensures t == x && u == y
  {
    var s := p + t + "/" + u;
    assert s[|p| + |t|] == '/' && s[|p| + |x|] == '/';
    assert forall i :: 0 <= i < |t| ==> s[|p| + i] == t[i];
    assert forall i :: 0 <= i < |x| ==> s[|p| + i] == x[i];
    assert |t| == |x|;
    assert t == s[|p|..|p| + |t|] == x;
    assert u == s[|p| + |t| + 1..] == y;
  }

  // A critical alert gives ready and wanted replicas exactly when fewer are ready.
  lemma ReplicasReportedIff(deps: seq<Deployment>, name: string, n: int, m: int)
    ensures (exists a :: a in Contributed(deps) && About(a, "critical", "deployment", name) &&
                         SaysRatio(a.message, n, m)) <==>
            (exists dep :: dep in deps && dep.name == name && dep.readyReplicas == n && dep.replicas == m && n < m)
  {
    if a :| a in Contributed(deps) && About(a, "critical", "deployment", name) && SaysRatio(a.message, n, m) {
      ContributedMembers(deps, a);
      var dep :| dep in deps && a in AlertsOf(dep);
      OwnAlerts(dep, a);
      RatioOne(dep.readyReplicas, dep.replicas, n, m);
    }
    if dep :| dep in deps && dep.name == name && dep.readyReplicas == n && dep.replicas == m && n < m {
      OwnAlerts(dep, ReplicasAlert(dep));
      ContributedMembers(deps, ReplicasAlert(dep));
      RatioOne(n, m, n, m);
    }
  }

  // A newer image is reported, with both images, exactly when there is one.
  lemma ImageReportedIff(deps: seq<Deployment>, name: string, current: string, latest: string)
    ensures Alert("info", "deployment", name, "image-outdated", map["current" := current, "latest" := latest])
            in Contributed(deps) <==>
            exists dep :: dep in deps && dep.name == name && dep.image == current && dep.latestImage == latest &&
                          latest != "" && latest != current
  {
    var a := Alert("info", "deployment", name, "image-outdated", map["current" := current, "latest" := latest]);
    ContributedMembers(deps, a);
    forall dep | dep in deps
      ensures a in AlertsOf(dep) <==>
              dep.name == name && dep.image == current && dep.latestImage == latest && latest != "" &&
              latest != current {
      ImageAlertOfOne(dep, a);
      SameImages(dep, current, latest);
    }
  }

  lemma SameImages(dep: Deployment, current: string, latest: string)
    ensures map["current" := current, "latest" := latest] ==
            map["current" := dep.image, "latest" := dep.latestImage] <==>
            current == dep.image && latest == dep.latestImage
  {
    var m, n := map["current" := current, "latest" := latest], map["current" := dep.image, "latest" := dep.latestImage];
    assert "current"[0] != "latest"[0];
    if m == n {
      assert m["current"] == n["current"] && m["latest"] == n["latest"];
    }
  }

  ghost predicate HasPod(deps: seq<Deployment>, pod: Pod)
  {
    exists dep :: dep in deps && pod in dep.pods
  }

  // A warning gives a pod's restarts exactly when there were more than two in a day.
  lemma RestartsReportedIff(deps: seq<Deployment>, name: string, n: int)
    ensures (exists a :: a in Contributed(deps) && About(a, "warning", "pod", name) &&
                         Says(a.message, "restarts:", n, "/24h") && a.props == map["threshold" := "2"]) <==>
            (exists pod :: HasPod(deps, pod) && pod.name == name && pod.restarts24h == n > 2)
  {
    if a :| a in Contributed(deps) && About(a, "warning", "pod", name) && Says(a.message, "restarts:", n, "/24h") {
      var pod := ReportedPod(deps, a);
      SaysOne(pod.restarts24h, "restarts:", "/24h", n);
    }
    if pod :| HasPod(deps, pod) && pod.name == name && pod.restarts24h == n > 2 {
      PodReported(deps, pod, RestartAlert(pod));
      SaysOne(n, "restarts:", "/24h", n);
    }
  }

  // A critical alert gives a pod's memory exactly when that is above 90 percent.
  lemma PodMemoryReportedIff(deps: seq<Deployment>, name: string, n: int)
    ensures (exists a :: a in Contributed(deps) && About(a, "critical", "pod", name) &&
                         Says(a.message, "mem:", n, "%") && a.props == map["threshold" := "90%"]) <==>
            (exists pod :: HasPod(deps, pod) && pod.name == name && pod.memPercent == n > 90)
  {
    if a :| a in Contributed(deps) && About(a, "critical", "pod", name) && Says(a.message, "mem:", n, "%") {
      var pod := ReportedPod(deps, a);
      SaysOne(pod.memPercent, "mem:", "%", n);
    }
    if pod :| HasPod(deps, pod) && pod.name == name && pod.memPercent == n > 90 {
      PodReported(deps, pod, PodMemAlert(pod));
      SaysOne(n, "mem:", "%", n);
    }
  }

  lemma ReportedPod(deps: seq<Deployment>, a: Alert) returns (pod: Pod)
    requires a in Contributed(deps) && a.typ == "pod"
    ensures HasPod(deps, pod) && a in PodAlerts(pod)
  {
    ContributedMembers(deps, a);
    var dep :| dep in deps && a in AlertsOf(dep);
    PodsAlerts(dep, a);
    pod :| pod in dep.pods && a in PodAlerts(pod);
  }

  lemma PodReported(deps: seq<Deployment>, pod: Pod, a: Alert)
    requires HasPod(deps, pod) && a in PodAlerts(pod) && a.typ == "pod"
    ensures a in Contributed(deps)
  {
    var dep :| dep in deps && pod in dep.pods;
    PodsAlerts(dep, a);
    ContributedMembers(deps, a);
  }

  // In the emitted order critical alerts precede all others, and warnings the image reports.
  lemma SeverityOrder(alerts: seq<Alert>, i: nat, j: nat)
    requires SortedBy(alerts, BySeverity) && i < |alerts| && j < |alerts|
    requires || (alerts[i].severity == "critical" && alerts[j].severity in {"warning", "info"})
             || (alerts[i].severity == "warning" && alerts[j].severity == "info")
    ensures i < j
  {
    RankOrder(alerts, i, j);
  }

  // ---- What is offered --------------------------------------------------------------

  // Scaling is offered, from the present count, exactly where it is permitted.
  lemma ScaleOfferedIff(view: NamespaceView, name: string, n: int)
    ensures (exists o :: o in Offered(view.deployments, view.permissions) && o.verb == "scale" &&
                         o.typ == "deployment" && o.name == name && o.params.Keys == {"current", "range"} &&
                         ReadSigned(o.params["current"]) == Some(n) && o.params["range"] == "1-10") <==>
            view.permissions.canScale &&
            (exists dep :: dep in view.deployments && dep.name == name && dep.replicas == n)
  {
    if o :| o in Offered(view.deployments, view.permissions) && o.verb == "scale" && o.name == name &&
            o.params.Keys == {"current", "range"} && ReadSigned(o.params["current"]) == Some(n) {
      var dep := OfferedBy(view, o);
      ScaleOfOne(dep, view.permissions, o);
      SignedReadsBack(dep.replicas);
    }
    if view.permissions.canScale {
      if dep :| dep in view.deployments && dep.name == name && dep.replicas == n {
        SignedReadsBack(n);
        ScaleOfOne(dep, view.permissions, Scale(dep));
        OfferedMembers(view.deployments, view.permissions, Scale(dep));
        assert Scale(dep).params.Keys == {"current", "range"};
      }
    }
  }

  lemma OfferedBy(view: NamespaceView, o: Operation) returns (dep: Deployment)
    requires o in Offered(view.deployments, view.permissions)
    ensures dep in view.deployments && o in OperationsOf(dep, view.permissions)
  {
    OfferedMembers(view.deployments, view.permissions, o);
    dep :| dep in view.deployments && o in OperationsOf(dep, view.permissions);
  }

  lemma ScaleOfOne(dep: Deployment, p: Permissions, o: Operation)
    requires o.verb == "scale"
    ensures o in OperationsOf(dep, p) <==> p.canScale && o == Scale(dep)
  {
    LogsAreLogs(dep.pods, p.canLogs);
  }

  lemma RestartOfOne(dep: Deployment, p: Permissions, o: Operation)
    requires o.verb == "restart"
    ensures o in OperationsOf(dep, p) <==> p.canRestart && o == Restart(dep)
  {
    LogsAreLogs(dep.pods, p.canLogs);
  }

  lemma RestartOfferedIff(view: NamespaceView, name: string)
    ensures Operation("restart", "deployment", name, map[]) in Offered(view.deployments, view.permissions) <==>
            view.permissions.canRestart && exists dep :: dep in view.deployments && dep.name == name
  {
    var o := Operation("restart", "deployment", name, map[]);
    OfferedMembers(view.deployments, view.permissions, o);
    forall dep | dep in view.deployments
      ensures o in OperationsOf(dep, view.permissions) <==> view.permissions.canRestart && dep.name == name {
      RestartOfOne(dep, view.permissions, o);
    }
  }

  // A rollout names its deployment's latest image and strategy.
  lemma RolloutTells(view: NamespaceView, o: Operation) returns (dep: Deployment)
    requires o in Offered(view.deployments, view.permissions) && o.verb == "rollout"
    ensures dep in view.deployments && o.typ == "deployment" && o.name == dep.name
    ensures o.params == map["to" := dep.latestImage, "strategy" := dep.strategy]
    ensures dep.latestImage != "" && dep.latestImage != dep.image
  {
    dep := OfferedBy(view, o);
    RolloutOfOne(dep, view.permissions, o);
  }

  lemma {:induction false} LogOperationsExactly(pods: seq<Pod>, allowed: bool, o: Operation)
    ensures o in LogOperations(pods, allowed) <==> allowed && exists pod :: pod in pods && o == Logs(pod)
  {
    if pods != [] {
      var init, last := pods[..|pods| - 1], pods[|pods| - 1];
      assert pods == init + [last];
      LogOperationsExactly(init, allowed, o);
    }
  }

  // Logs are offered for every pod exactly where they are permitted.
  lemma LogsOfferedIff(view: NamespaceView, name: string)
    ensures Operation("logs", "pod", name, map["since" := "1h"]) in Offered(view.deployments, view.permissions) <==>
            view.permissions.canLogs && exists pod :: HasPod(view.deployments, pod) && pod.name == name
  {
    var o := Operation("logs", "pod", name, map["since" := "1h"]);
    OfferedMembers(view.deployments, view.permissions, o);
    forall dep | dep in view.deployments
      ensures o in OperationsOf(dep, view.permissions) <==>
              view.permissions.canLogs && exists pod :: pod in dep.pods && pod.name == name {
      LogOperationsExactly(dep.pods, view.permissions.canLogs, o);
      LogsOfOne(dep, view.permissions, o);
    }
  }

  lemma LogsOfOne(dep: Deployment, p: Permissions, o: Operation)
    requires o.verb == "logs"
    ensures o in OperationsOf(dep, p) <==> o in LogOperations(dep.pods, p.canLogs)
  {
  }

  // Nothing else is offered.
  lemma OfferedVerbs(view: NamespaceView, o: Operation)
    requires o in Offered(view.deployments, view.permissions)
    ensures o.verb in {"scale", "rollout", "restart", "logs"}
  {
    var dep := OfferedBy(view, o);
    LogsAreLogs(dep.pods, view.permissions.canLogs);
  }
}
