/**
  The three bootstrap procedures of `easy_openyurt yurt` (master init, master
  expand, worker join), the environment check in front of master init and the
  required-parameter checks of the subcommand dispatch, as step lists and as
  the runs they produce against an oracle of command results.
*/
module Procedures {
  import opened Wrappers
  import opened Strings
  import opened Steps

  /** The settings of `configs.Yurt`, `configs.Kube` and `configs.System` the core reads. */
  datatype Config = Config(
    currentOS: string,
    masterAsCloud: bool,
    workerAsEdge: bool,
    workerNodeName: string,
    helmInstalled: bool,
    kustomizeInstalled: bool,
    dependencies: string,
    yurtVersion: string,
    apiserverAdvertiseAddress: string,
    apiserverPort: string,
    apiserverToken: string)

  /** A run together with the configuration it leaves behind. */
  datatype Outcome = Outcome(cfg: Config, run: Run)

  const UbuntuDependencies := "curl apt-transport-https ca-certificates build-essential git"
  const AppManagerReady := "1/1 Running"
  const NodeReady := "Ready"

  // ----------------------------------------------- environment check

  /** The packages each supported OS needs; None for an unsupported OS. */
  function OSDependencies(os: string): (deps: Option<string>)
    ensures deps.Some? <==> os in {"ubuntu", "rocky linux", "centos"}
    ensures os == "ubuntu" ==> deps == Some(UbuntuDependencies)
    ensures os != "ubuntu" && deps.Some? ==> deps == Some("")
  {
    match os
    case "ubuntu" => Some(UbuntuDependencies)
    case "rocky linux" => Some("")
    case "centos" => Some("")
    case _ => None
  }

  /** One PATH lookup: its event, plus the warning when the tool is missing. */
  function LookupRun(t: Tool, o: seq<CmdResult>, u: nat): (r: Run)
    ensures u < |o| ==> r.halt.None? && r.used == u + 1
    ensures u < |o| ==> r.events == [Issued(LookPath(t))] + (if o[u].ok then [] else [Warned(ToolNotFound(t))])
    ensures u >= |o| ==> r == Run([], u, Some(OracleExhausted))
  {
    var l := ExecRun(LookPath(t), BestEffort, o, u);
    if l.halt.Some? then l
    else if o[u].ok then l
    else Then(l, Run([Warned(ToolNotFound(t))], l.used, None))
  }

  /**
    `CheckYurtMasterEnvironment`: looks up helm and kustomize, sets each
    "installed" flag when its lookup succeeds, then picks the dependencies
    by OS; an unsupported OS is fatal.
  */
  function CheckEnvironmentSpec(c: Config, o: seq<CmdResult>, u: nat): (e: Outcome)
    ensures u <= e.run.used <= u + 2
    ensures e.run.halt.None? ==> e.run.used == u + 2 && OSDependencies(c.currentOS).Some?
  {
    var helm := LookupRun(Helm, o, u);
    if helm.halt.Some? then Outcome(c, helm)
    else
      var c1 := if o[u].ok then c.(helmInstalled := true) else c;
      var kust := LookupRun(Kustomize, o, helm.used);
      var r := Then(helm, kust);
      if kust.halt.Some? then Outcome(c1, r)
      else
        var c2 := if o[u + 1].ok then c1.(kustomizeInstalled := true) else c1;
        match OSDependencies(c.currentOS)
        case None => Outcome(c2, r.(halt := Some(UnsupportedOS(c.currentOS))))
        case Some(d) => Outcome(c2.(dependencies := d), r)
  }

  /**
    The two flags are set exactly when the lookups succeed (and never
    cleared); the dependencies follow the OS; an unsupported OS halts after
    both lookups; nothing else in the configuration changes.
  */
  lemma EnvironmentCheckEffect(c: Config, o: seq<CmdResult>, u: nat)
    requires u + 2 <= |o|
    ensures var e := CheckEnvironmentSpec(c, o, u);
      && e.cfg.helmInstalled == (c.helmInstalled || o[u].ok)
      && e.cfg.kustomizeInstalled == (c.kustomizeInstalled || o[u + 1].ok)
      && e.run.used == u + 2
      && e.run.events ==
           [Issued(LookPath(Helm))] + (if o[u].ok then [] else [Warned(ToolNotFound(Helm))]) +
           [Issued(LookPath(Kustomize))] + (if o[u + 1].ok then [] else [Warned(ToolNotFound(Kustomize))])
      && (e.run.halt.None? <==> OSDependencies(c.currentOS).Some?)
      && (e.run.halt.Some? ==> e.run.halt == Some(UnsupportedOS(c.currentOS)) && e.cfg.dependencies == c.dependencies)
      && (e.run.halt.None? ==> e.cfg.dependencies == OSDependencies(c.currentOS).value)
      && e.cfg.(helmInstalled := c.helmInstalled, kustomizeInstalled := c.kustomizeInstalled, dependencies := c.dependencies) == c
  {
  }

  // --------------------------------------------------------- master init

  /** The helm block: skipped when helm was found; only ubuntu can install it. */
  function HelmPlan(c: Config): (plan: seq<Action>)
    ensures (plan == []) == c.helmInstalled
    ensures forall i :: 0 <= i < |plan| ==> Fixed(plan[i])
  {
    if c.helmInstalled then []
    else if c.currentOS == "ubuntu" then
      [Exec(DownloadHelmSigningKey, Checked), Exec(DearmorHelmSigningKey, Checked),
       Exec(AddHelmAptRepository, Checked), Exec(InstallHelm, Checked)]
    else [Abort(UnsupportedDistribution(c.currentOS))]
  }

  /** The kustomize block: skipped when kustomize was found. */
  function KustomizePlan(c: Config): (plan: seq<Action>)
    ensures (plan == []) == c.kustomizeInstalled
    ensures forall i :: 0 <= i < |plan| ==> plan[i].Exec? && plan[i].policy == Checked
  {
    if c.kustomizeInstalled then []
    else [Exec(DownloadKustomizeScript, Checked), Exec(RunKustomizeScript, Checked), Exec(InstallKustomize, Checked)]
  }

  /** The optional taints, whose results are ignored. */
  function TaintPlan(c: Config): (plan: seq<Action>)
    ensures (plan == []) == !c.masterAsCloud
    ensures forall i :: 0 <= i < |plan| ==> plan[i].Exec? ==> plan[i].policy == BestEffort
  {
    if c.masterAsCloud then
      [Notify(MasterAsCloudNode), Exec(TaintMasterNoSchedule, BestEffort), Exec(TaintControlPlane, BestEffort)]
    else []
  }

  /** Everything of master init before the readiness poll of yurt-app-manager. */
  function MasterInitHead(c: Config): seq<Action> {
    [Exec(InstallDependencies(c.dependencies), Checked)] + TaintPlan(c) + HelmPlan(c) + KustomizePlan(c)
    + [Exec(CloneOpenYurtHelm(c.yurtVersion), Checked), Exec(DeployYurtAppManager, Checked)]
  }

  /** Everything of master init after the readiness poll. */
  function MasterInitTail(): seq<Action> {
    [Exec(DeployYurtControllerManager, Checked),
     Exec(CloneRavenControllerManager, Checked), Exec(DeployRavenControllerManager, Checked),
     Exec(CloneRavenAgent, Checked), Exec(DeployRavenAgent, Checked)]
  }

  /** `YurtMasterInit` after the environment check, in declared order. */
  function MasterInitPlan(c: Config): (plan: seq<Action>)
    ensures |plan| == |MasterInitHead(c)| + 1 + |MasterInitTail()|
    ensures plan[0] == Exec(InstallDependencies(c.dependencies), Checked)
    ensures plan[|MasterInitHead(c)|] == PollUntil(ProbeYurtAppManager, AppManagerReady, YurtAppManager)
    ensures plan[|plan| - 1] == Exec(DeployRavenAgent, Checked)
  {
    MasterInitHead(c) + [PollUntil(ProbeYurtAppManager, AppManagerReady, YurtAppManager)] + MasterInitTail()
  }

  /** `YurtMasterInit`: the environment check, then, unless it halted, the master-init list. */
  function MasterInitSpec(c: Config, o: seq<CmdResult>, u: nat): (e: Outcome)
    ensures e.cfg == CheckEnvironmentSpec(c, o, u).cfg
  {
    var e := CheckEnvironmentSpec(c, o, u);
    if e.run.halt.Some? then e
    else Outcome(e.cfg, Then(e.run, Interpret(MasterInitPlan(e.cfg), o, e.run.used)))
  }

  /** An install step of helm or kustomize, or the abort for a distribution helm cannot be installed on. */
  predicate InstallsOrAborts(a: Action) {
    a in [Exec(DownloadHelmSigningKey, Checked), Exec(DearmorHelmSigningKey, Checked),
          Exec(AddHelmAptRepository, Checked), Exec(InstallHelm, Checked),
          Exec(DownloadKustomizeScript, Checked), Exec(RunKustomizeScript, Checked), Exec(InstallKustomize, Checked)]
    || a.Abort?
  }

  /**
    The helm steps are in the list exactly when helm was not found and the OS
    is ubuntu; a missing helm on any other OS is a fatal abort instead; the
    kustomize steps are in the list exactly when kustomize was not found.
  */
  lemma InstallGates(c: Config)
    ensures Exec(InstallHelm, Checked) in MasterInitPlan(c) <==> !c.helmInstalled && c.currentOS == "ubuntu"
    ensures Abort(UnsupportedDistribution(c.currentOS)) in MasterInitPlan(c) <==> !c.helmInstalled && c.currentOS != "ubuntu"
    ensures Exec(InstallKustomize, Checked) in MasterInitPlan(c) <==> !c.kustomizeInstalled
    ensures (Exec(TaintMasterNoSchedule, BestEffort) in MasterInitPlan(c)) == c.masterAsCloud
  {
    MasterInitMembers(c, Exec(InstallHelm, Checked));
    MasterInitMembers(c, Abort(UnsupportedDistribution(c.currentOS)));
    MasterInitMembers(c, Exec(InstallKustomize, Checked));
    MasterInitMembers(c, Exec(TaintMasterNoSchedule, BestEffort));
  }

  /** An action is in master init exactly when it is in one of its blocks. */
  lemma MasterInitMembers(c: Config, a: Action)
    ensures a in MasterInitPlan(c) <==>
      a in [Exec(InstallDependencies(c.dependencies), Checked)] || a in TaintPlan(c) || a in HelmPlan(c) || a in KustomizePlan(c)
      || a in [Exec(CloneOpenYurtHelm(c.yurtVersion), Checked), Exec(DeployYurtAppManager, Checked),
               PollUntil(ProbeYurtAppManager, AppManagerReady, YurtAppManager)] || a in MasterInitTail()
  {
    assert MasterInitPlan(c) == [Exec(InstallDependencies(c.dependencies), Checked)] + TaintPlan(c) + HelmPlan(c) + KustomizePlan(c)
      + [Exec(CloneOpenYurtHelm(c.yurtVersion), Checked), Exec(DeployYurtAppManager, Checked),
         PollUntil(ProbeYurtAppManager, AppManagerReady, YurtAppManager)] + MasterInitTail();
  }

  /**
    Both tools found: the environment check leaves both flags set and the
    master-init list has no install step and no abort in it.
  */
  lemma BothToolsFoundSkipInstalls(c: Config, o: seq<CmdResult>, u: nat)
    requires u + 2 <= |o| && o[u].ok && o[u + 1].ok
    ensures var e := CheckEnvironmentSpec(c, o, u);
      e.cfg.helmInstalled && e.cfg.kustomizeInstalled &&
      forall i :: 0 <= i < |MasterInitPlan(e.cfg)| ==> !InstallsOrAborts(MasterInitPlan(e.cfg)[i])
  {
    EnvironmentCheckEffect(c, o, u);
    var e := CheckEnvironmentSpec(c, o, u);
    assert HelmPlan(e.cfg) == [] && KustomizePlan(e.cfg) == [];
    var plan := MasterInitPlan(e.cfg);
    assert plan == [Exec(InstallDependencies(e.cfg.dependencies), Checked)] + TaintPlan(e.cfg)
      + [Exec(CloneOpenYurtHelm(e.cfg.yurtVersion), Checked), Exec(DeployYurtAppManager, Checked),
         PollUntil(ProbeYurtAppManager, AppManagerReady, YurtAppManager)] + MasterInitTail();
  }

  /**
    yurt-controller-manager is deployed only after the app-manager poll has
    seen "1/1 Running": if master init issues its deploy step, everything
    before the poll ran without a halt, the poll ended on a successful
    "1/1 Running" answer to its probe, and the deploy was issued by the part
    of the list that runs after the poll.
  */
  lemma ControllerManagerWaitsForAppManager(c: Config, o: seq<CmdResult>, u: nat)
    requires Issued(DeployYurtControllerManager) in Interpret(MasterInitPlan(c), o, u).events
    ensures var h := Interpret(MasterInitHead(c), o, u);
      var pr := Poll(ProbeYurtAppManager, AppManagerReady, YurtAppManager, o, h.used, 1);
      && h.halt.None? && pr.halt.None?
      && h.used < pr.used <= |o| && o[pr.used - 1] == CmdResult(AppManagerReady, true)
      && Issued(DeployYurtControllerManager) in Interpret(MasterInitTail(), o, pr.used).events
  {
    DeployComesAfterHead(c, o, u);
    PollGuardsTail(o, Interpret(MasterInitHead(c), o, u).used);
  }

  /** A controller-manager deploy in master init: the head ran without a halt and the deploy came from the rest. */
  lemma DeployComesAfterHead(c: Config, o: seq<CmdResult>, u: nat)
    requires Issued(DeployYurtControllerManager) in Interpret(MasterInitPlan(c), o, u).events
    ensures var h := Interpret(MasterInitHead(c), o, u);
      && h.halt.None?
      && Issued(DeployYurtControllerManager) in
           Interpret([PollUntil(ProbeYurtAppManager, AppManagerReady, YurtAppManager)] + MasterInitTail(), o, h.used).events
  {
    var head := MasterInitHead(c);
    var rest := [PollUntil(ProbeYurtAppManager, AppManagerReady, YurtAppManager)] + MasterInitTail();
    assert MasterInitPlan(c) == head + rest;
    InterpretAppend(head, rest, o, u);
    HeadAvoidsControllerManager(c);
    NeverIssued(head, o, u, DeployYurtControllerManager);
  }

  /** No action before the app-manager poll can issue the controller-manager deploy. */
  lemma HeadAvoidsControllerManager(c: Config)
    ensures forall i :: 0 <= i < |MasterInitHead(c)| ==> !MayIssue(MasterInitHead(c)[i], DeployYurtControllerManager)
  {
    assert MasterInitHead(c) == [Exec(InstallDependencies(c.dependencies), Checked)] + TaintPlan(c) + HelmPlan(c) + KustomizePlan(c)
      + [Exec(CloneOpenYurtHelm(c.yurtVersion), Checked), Exec(DeployYurtAppManager, Checked)];
  }

  /**
    From the poll on: a controller-manager deploy means the poll ended on a
    successful "1/1 Running" and the deploy came after it.
  */
  lemma PollGuardsTail(o: seq<CmdResult>, v: nat)
    requires Issued(DeployYurtControllerManager) in
      Interpret([PollUntil(ProbeYurtAppManager, AppManagerReady, YurtAppManager)] + MasterInitTail(), o, v).events
    ensures var pr := Poll(ProbeYurtAppManager, AppManagerReady, YurtAppManager, o, v, 1);
      && pr.halt.None? && v < pr.used <= |o| && o[pr.used - 1] == CmdResult(AppManagerReady, true)
      && Issued(DeployYurtControllerManager) in Interpret(MasterInitTail(), o, pr.used).events
  {
    var poll := [PollUntil(ProbeYurtAppManager, AppManagerReady, YurtAppManager)];
    InterpretAppend(poll, MasterInitTail(), o, v);
    var p := Interpret(poll, o, v);
    var pr := Poll(ProbeYurtAppManager, AppManagerReady, YurtAppManager, o, v, 1);
    assert poll[0] == PollUntil(ProbeYurtAppManager, AppManagerReady, YurtAppManager) && poll[1..] == [];
    assert p.events == pr.events && p.used == pr.used && p.halt == pr.halt;
    PollIssuesOnlyProbe(ProbeYurtAppManager, AppManagerReady, YurtAppManager, o, v, 1, DeployYurtControllerManager);
    assert pr.halt.None?;
    PollSucceedsOnlyWhenReady(ProbeYurtAppManager, AppManagerReady, YurtAppManager, o, v, 1);
    assert o[pr.used - 1] == CmdResult(AppManagerReady, true);
    var tail := Interpret(MasterInitTail(), o, pr.used);
    assert Interpret(poll + MasterInitTail(), o, v).events == pr.events + tail.events;
  }

  // ------------------------------------------------------- master expand

  /** The label value: "true" for an edge worker, "false" for a cloud worker. */
  function EdgeLabel(workerAsEdge: bool): (v: string)
    ensures v == "true" <==> workerAsEdge
    ensures v == "false" <==> !workerAsEdge
  {
    if workerAsEdge then "true" else "false"
  }

  /** `YurtMasterExpand`: label, autonomy annotation, node poll, pod restart. */
  function MasterExpandPlan(c: Config): (plan: seq<Action>)
    ensures |plan| == 4
    ensures forall i :: 0 <= i < |plan| ==> !(plan[i].Exec? && plan[i].policy == BestEffort)
  {
    var node := c.workerNodeName;
    [Exec(LabelNode(node, EdgeLabel(c.workerAsEdge)), Checked),
     Exec(AnnotateAutonomy(node), Checked),
     PollUntil(ProbeNodeStatus(node), NodeReady, WorkerNode),
     RestartListed(ListPodsToRestart(node))]
  }

  /**
    The label comes first, then the annotation, then the readiness poll; a
    failed label or annotation halts before anything later is issued.
  */
  lemma MasterExpandPrelude(c: Config, o: seq<CmdResult>, u: nat)
    requires u + 2 <= |o|
    ensures var r := Interpret(MasterExpandPlan(c), o, u);
      var labelStep := LabelNode(c.workerNodeName, EdgeLabel(c.workerAsEdge));
      var annotate := AnnotateAutonomy(c.workerNodeName);
      && (!o[u].ok ==> r == Run([Issued(labelStep)], u + 1, Some(StepFailed(labelStep))))
      && (o[u].ok && !o[u + 1].ok ==> r == Run([Issued(labelStep), Issued(annotate)], u + 2, Some(StepFailed(annotate))))
      && (o[u].ok && o[u + 1].ok ==>
            r == Then(Run([Issued(labelStep), Issued(annotate)], u + 2, None),
                      Interpret(MasterExpandPlan(c)[2..], o, u + 2)))
  {
    var plan := MasterExpandPlan(c);
    assert plan == plan[..2] + plan[2..];
    InterpretAppend(plan[..2], plan[2..], o, u);
    assert plan[..2][1..] == [plan[1]];
  }

  /**
    The restart step of master expand on a two-line listing such as
    "kube-system coredns-abc\nkube-system coredns-def": exactly two deletes,
    for the two (namespace, pod) pairs in listing order; when the second
    delete fails, the procedure halts on it and the first is not repeated.
  */
  lemma RestartTwoPods(node: string, ns1: string, pod1: string, ns2: string, pod2: string, o: seq<CmdResult>, u: nat)
    requires NameField(ns1) && NameField(pod1) && NameField(ns2) && NameField(pod2)
    requires u + 3 <= |o|
    requires o[u] == CmdResult(ns1 + " " + pod1 + "\n" + ns2 + " " + pod2, true)
    requires o[u + 1].ok
    ensures !o[u + 2].ok ==> (Restart(ListPodsToRestart(node), o, u) ==
      Run([Issued(ListPodsToRestart(node)), Issued(DeletePod(ns1, pod1)), Issued(DeletePod(ns2, pod2))],
          u + 3, Some(StepFailed(DeletePod(ns2, pod2)))))
    ensures o[u + 2].ok ==> (Restart(ListPodsToRestart(node), o, u) ==
      Run([Issued(ListPodsToRestart(node)), Issued(DeletePod(ns1, pod1)), Issued(DeletePod(ns2, pod2))], u + 3, None))
  {
    var lines := TwoPodListing(ns1, pod1, ns2, pod2);
    TwoDeletes(lines, o, u + 1);
  }

  lemma TwoPodListing(ns1: string, pod1: string, ns2: string, pod2: string) returns (lines: seq<string>)
    requires NameField(ns1) && NameField(pod1) && NameField(ns2) && NameField(pod2)
    ensures lines == Split(ns1 + " " + pod1 + "\n" + ns2 + " " + pod2, '\n')
    ensures |lines| == 2 && AllHavePods(lines)
    ensures DeleteOf(lines[0]) == DeletePod(ns1, pod1) && DeleteOf(lines[1]) == DeletePod(ns2, pod2)
  {
    var a, b := ns1 + " " + pod1, ns2 + " " + pod2;
    lines := [a, b];
    PodLine(ns1, pod1);
    PodLine(ns2, pod2);
    assert Join(lines, '\n') == ns1 + " " + pod1 + "\n" + ns2 + " " + pod2;
    SplitJoin(lines, '\n');
  }

  lemma TwoDeletes(lines: seq<string>, o: seq<CmdResult>, u: nat)
    requires |lines| == 2 && AllHavePods(lines)
    requires u + 2 <= |o| && o[u].ok
    ensures o[u + 1].ok ==> (Deletes(lines, o, u) ==
      Run([Issued(DeleteOf(lines[0])), Issued(DeleteOf(lines[1]))], u + 2, None))
    ensures !o[u + 1].ok ==> (Deletes(lines, o, u) ==
      Run([Issued(DeleteOf(lines[0])), Issued(DeleteOf(lines[1]))], u + 2, Some(StepFailed(DeleteOf(lines[1])))))
  {
    assert lines[..2] == lines;
    assert lines[1..][1..] == [];
    assert DeleteEvents(lines) == [Issued(DeleteOf(lines[0])), Issued(DeleteOf(lines[1]))];
    if o[u + 1].ok {
      DeletesAllSucceed(lines, o, u);
    } else {
      DeletesStopAtFirstFailure(lines, o, u, 1);
    }
  }

  /** A field of a listing line: no space and no line break in it. */
  ghost predicate NameField(s: string) {
    ' ' !in s && '\n' !in s
  }

  /** A line "ns pod" with no further space names the pair (ns, pod). */
  lemma PodLine(ns: string, pod: string)
    requires ' ' !in ns && ' ' !in pod
    ensures ' ' in ns + " " + pod
    ensures NameField(ns) && NameField(pod) ==> '\n' !in ns + " " + pod
    ensures DeleteOf(ns + " " + pod) == DeletePod(ns, pod)
  {
    var line := ns + " " + pod;
    assert line[|ns|] == ' ';
    assert Join([ns, pod], ' ') == line;
    SplitJoin([ns, pod], ' ');
  }

  // --------------------------------------------------------- worker join

  /** The four commands of `YurtWorkerJoin`, in order. */
  function WorkerJoinSteps(c: Config): seq<Step> {
    [SetUpYurthub(c.apiserverAdvertiseAddress, c.apiserverPort, c.apiserverToken),
     WriteKubeletConfig, RewriteKubeletArgs, RestartKubelet]
  }

  /**
    `YurtWorkerJoin` as the code is written: only the Yurthub step is
    checked. The three kubelet commands discard their error, and the `err`
    tested after each of them is the one the Yurthub step left, nil by then.
  */
  function WorkerJoinPlanAsWritten(c: Config): (plan: seq<Action>)
    ensures |plan| == |WorkerJoinSteps(c)|
    ensures forall i :: 0 <= i < |plan| ==> plan[i] == Exec(WorkerJoinSteps(c)[i], if i == 0 then Checked else BestEffort)
  {
    var steps := WorkerJoinSteps(c);
    [Exec(steps[0], Checked), Exec(steps[1], BestEffort), Exec(steps[2], BestEffort), Exec(steps[3], BestEffort)]
  }

  /**
    As written, once Yurthub is set up the join issues all three kubelet
    steps and reports success whatever they answer; a failed Yurthub step
    halts before them.
  */
  lemma KubeletFailuresAreIgnored(c: Config, o: seq<CmdResult>, u: nat)
    requires u + 4 <= |o|
    ensures var st := WorkerJoinSteps(c);
      o[u].ok ==> (Interpret(WorkerJoinPlanAsWritten(c), o, u) ==
        Run([Issued(st[0]), Issued(st[1]), Issued(st[2]), Issued(st[3])], u + 4, None))
    ensures var st := WorkerJoinSteps(c);
      !o[u].ok ==> (Interpret(WorkerJoinPlanAsWritten(c), o, u) ==
        Run([Issued(st[0])], u + 1, Some(StepFailed(st[0]))))
  {
    var st := WorkerJoinSteps(c);
    var plan := WorkerJoinPlanAsWritten(c);
    assert plan[1..][1..] == plan[2..] && plan[2..][1..] == plan[3..] && plan[3..][1..] == [];
    var r3 := Interpret(plan[3..], o, u + 3);
    assert plan[3..][0] == Exec(st[3], BestEffort);
    assert [Issued(st[3])] + [] == [Issued(st[3])];
    assert Perform(plan[3..][0], o, u + 3) == Run([Issued(st[3])], u + 4, None);
    assert Interpret(plan[3..][1..], o, u + 4) == Run([], u + 4, None);
    assert r3 == Run([Issued(st[3])], u + 4, None);
    var r2 := Interpret(plan[2..], o, u + 2);
    assert r2 == Then(Run([Issued(st[2])], u + 3, None), r3);
    var r1 := Interpret(plan[1..], o, u + 1);
    assert r1 == Then(Run([Issued(st[1])], u + 2, None), r2);
    assert r1 == Run([Issued(st[1]), Issued(st[2]), Issued(st[3])], u + 4, None);
  }

  /** `YurtWorkerJoin` as evidently intended: each of its four commands halts the join when it fails. */
  function WorkerJoinPlan(c: Config): (plan: seq<Action>)
    ensures |plan| == |WorkerJoinSteps(c)|
    ensures forall i :: 0 <= i < |plan| ==> plan[i] == Exec(WorkerJoinSteps(c)[i], Checked)
  {
    var steps := WorkerJoinSteps(c);
    ChecksAt(steps, 0);
    ChecksAt(steps, 1);
    ChecksAt(steps, 2);
    ChecksAt(steps, 3);
    Checks(steps)
  }

  /** All four commands succeed: they are issued in order and the join succeeds. */
  lemma WorkerJoinSucceeds(c: Config, o: seq<CmdResult>, u: nat)
    requires u + 4 <= |o|
    requires forall j :: u <= j < u + 4 ==> o[j].ok
    ensures Interpret(WorkerJoinPlan(c), o, u) == Run(Issues(WorkerJoinSteps(c)), u + 4, None)
  {
    ChecksAllSucceed(WorkerJoinSteps(c), o, u);
  }

  /** The first failing command (number `k`) halts the join; no later command is issued. */
  lemma WorkerJoinStopsAtFirstFailure(c: Config, o: seq<CmdResult>, u: nat, k: nat)
    requires k < 4 && u + k < |o|
    requires forall j :: u <= j < u + k ==> o[j].ok
    requires !o[u + k].ok
    ensures Interpret(WorkerJoinPlan(c), o, u) ==
      Run(Issues(WorkerJoinSteps(c)[..k + 1]), u + k + 1, Some(StepFailed(WorkerJoinSteps(c)[k])))
  {
    ChecksStopAtFirstFailure(WorkerJoinSteps(c), o, u, k);
  }

  // ---------------------------------------------------------- dispatch

  /**
    `ParseSubcommandYurt` after flag parsing: picks the procedure by node
    role and operation and checks its required parameters first.
  */
  function DispatchSpec(role: string, operation: string, c: Config, o: seq<CmdResult>, u: nat): (d: Outcome)
    ensures d.cfg != c ==> role == "master" && operation == "init"
  {
    if role == "master" then
      if operation == "init" then MasterInitSpec(c, o, u)
      else if operation == "expand" then
        if |c.workerNodeName| == 0 then Outcome(c, Run([], u, Some(MissingParameter("worker-node-name"))))
        else Outcome(c, Interpret(MasterExpandPlan(c), o, u))
      else Outcome(c, Run([], u, Some(InvalidOperation(operation))))
    else if role == "worker" then
      if operation != "join" then Outcome(c, Run([], u, Some(InvalidOperation(operation))))
      else if |c.apiserverAdvertiseAddress| == 0 then Outcome(c, Run([], u, Some(MissingParameter("apiserver-advertise-address"))))
      else if |c.apiserverToken| == 0 then Outcome(c, Run([], u, Some(MissingParameter("apiserver-token"))))
      else Outcome(c, Interpret(WorkerJoinPlanAsWritten(c), o, u))
    else Outcome(c, Run([], u, Some(InvalidNodeRole(role))))
  }

  /**
    A missing required parameter, an unknown operation or an unknown role
    halts before any step is issued; otherwise the chosen procedure runs.
  */
  lemma DispatchChecksFirst(role: string, operation: string, c: Config, o: seq<CmdResult>, u: nat)
    ensures var d := DispatchSpec(role, operation, c, o, u);
      && (role == "master" && operation == "expand" && c.workerNodeName == [] ==>
            d == Outcome(c, Run([], u, Some(MissingParameter("worker-node-name")))))
      && (role == "worker" && operation == "join" && c.apiserverAdvertiseAddress == [] ==>
            d == Outcome(c, Run([], u, Some(MissingParameter("apiserver-advertise-address")))))
      && (role == "worker" && operation == "join" && c.apiserverAdvertiseAddress != [] && c.apiserverToken == [] ==>
            d == Outcome(c, Run([], u, Some(MissingParameter("apiserver-token")))))
      && (role !in {"master", "worker"} ==> d == Outcome(c, Run([], u, Some(InvalidNodeRole(role)))))
      && (role == "master" && operation !in {"init", "expand"} ==> d == Outcome(c, Run([], u, Some(InvalidOperation(operation)))))
      && (role == "worker" && operation != "join" ==> d == Outcome(c, Run([], u, Some(InvalidOperation(operation)))))
      && (role == "master" && operation == "init" ==> d == MasterInitSpec(c, o, u))
      && (role == "master" && operation == "expand" && c.workerNodeName != [] ==>
            d == Outcome(c, Interpret(MasterExpandPlan(c), o, u)))
      && (role == "worker" && operation == "join" && c.apiserverAdvertiseAddress != [] && c.apiserverToken != [] ==>
            d == Outcome(c, Interpret(WorkerJoinPlanAsWritten(c), o, u)))
  {
  }
}
