/**
  What one bootstrap procedure does, as values. Every external call of the
  procedures (a shell command, a package install, a download, a lookup of a
  tool on the PATH) is a `Step`; it is answered by the next entry of a finite
  sequence of results, the oracle, and the procedure's observable effect is
  the sequence of `Event`s it emits: the steps it issues and the warnings it
  prints. A `Halt` is the process exit of `logs.CheckError*` / `logs.FatalPrintf`.
*/
module Steps {
  import opened Wrappers
  import opened Strings

  datatype Tool = Helm | Kustomize

  /** The external calls, identified by what they do and the arguments that matter. */
  datatype Step =
    | LookPath(tool: Tool)
    | InstallDependencies(packages: string)
    | TaintMasterNoSchedule
    | TaintControlPlane
    | DownloadHelmSigningKey
    | DearmorHelmSigningKey
    | AddHelmAptRepository
    | InstallHelm
    | DownloadKustomizeScript
    | RunKustomizeScript
    | InstallKustomize
    | CloneOpenYurtHelm(version: string)
    | DeployYurtAppManager
    | ProbeYurtAppManager
    | DeployYurtControllerManager
    | CloneRavenControllerManager
    | DeployRavenControllerManager
    | CloneRavenAgent
    | DeployRavenAgent
    | LabelNode(node: string, isEdgeWorker: string)
    | AnnotateAutonomy(node: string)
    | ProbeNodeStatus(node: string)
    | ListPodsToRestart(node: string)
    | DeletePod(namespace: string, pod: string)
    | SetUpYurthub(address: string, port: string, token: string)
    | WriteKubeletConfig
    | RewriteKubeletArgs
    | RestartKubelet

  /** What the command executor answers: captured output and whether `err` was nil. */
  datatype CmdResult = CmdResult(output: string, ok: bool)

  /** A checked step halts the procedure on failure; a best-effort step ignores its result. */
  datatype Policy = Checked | BestEffort

  datatype WaitTopic = YurtAppManager | WorkerNode

  /** The `logs.WarnPrintf` messages. */
  datatype Warning =
    | ToolNotFound(tool: Tool)
    | MasterAsCloudNode
    | StillWaiting(topic: WaitTopic, count: nat)

  datatype Event = Issued(step: Step) | Warned(warning: Warning)

  datatype Halt =
    | StepFailed(step: Step)
    | UnsupportedOS(os: string)
    | UnsupportedDistribution(os: string)
    | MissingParameter(flag: string)
    | InvalidNodeRole(role: string)
    | InvalidOperation(operation: string)
    | PodLineWithoutSpace(line: string)  // `podsInfo[1]` out of range: a Go panic
    | OracleExhausted                    // the supplied results ran out

  /** One entry of a procedure's step list. */
  datatype Action =
    | Exec(step: Step, policy: Policy)
    | Notify(warning: Warning)
    | Abort(reason: Halt)
    | PollUntil(probe: Step, ready: string, topic: WaitTopic)
    | RestartListed(listing: Step)

  /**
    The effect of running something from oracle position `used`-before:
    the events emitted, the oracle position reached, and the halt, if any.
  */
  datatype Run = Run(events: seq<Event>, used: nat, halt: Option<Halt>)

  /** `a` followed by `b`, where `b` starts at the oracle position `a` reached. */
  function Then(a: Run, b: Run): Run {
    Run(a.events + b.events, b.used, b.halt)
  }

  /** One call of the executor, answered by `o[u]`. */
  function ExecRun(s: Step, p: Policy, o: seq<CmdResult>, u: nat): (r: Run)
    ensures u < |o| ==> r.events == [Issued(s)] && r.used == u + 1
    ensures u < |o| ==> (r.halt.Some? <==> p == Checked && !o[u].ok)
    ensures r.halt.Some? ==> r.halt == Some(if u < |o| then StepFailed(s) else OracleExhausted)
    ensures u >= |o| ==> r == Run([], u, Some(OracleExhausted))
  {
    if u >= |o| then Run([], u, Some(OracleExhausted))
    else Run([Issued(s)], u + 1, if p == Checked && !o[u].ok then Some(StepFailed(s)) else None)
  }

  // ------------------------------------------------------------- polling

  /**
    The readiness loop: issue `probe`; a failed probe halts; an output equal
    to `ready` ends the loop; anything else prints the wait with counter
    `count` and probes again.
  */
  function Poll(probe: Step, ready: string, topic: WaitTopic, o: seq<CmdResult>, u: nat, count: nat): (r: Run)
    ensures r.used >= u
    decreases |o| - u
  {
    if u >= |o| then Run([], u, Some(OracleExhausted))
    else if !o[u].ok then Run([Issued(probe)], u + 1, Some(StepFailed(probe)))
    else if o[u].output == ready then Run([Issued(probe)], u + 1, None)
    else Then(Run([Issued(probe), Warned(StillWaiting(topic, count))], u + 1, None),
              Poll(probe, ready, topic, o, u + 1, count + 1))
  }

  /** `n` unsuccessful rounds of a poll: a probe and a wait with counters from `from` on. */
  function Waits(probe: Step, topic: WaitTopic, from: nat, n: nat): (w: seq<Event>)
    ensures |w| == 2 * n
    decreases n
  {
    if n == 0 then [] else [Issued(probe), Warned(StillWaiting(topic, from))] + Waits(probe, topic, from + 1, n - 1)
  }

  /** Probe results that neither fail nor match. */
  ghost predicate NotReadyYet(o: seq<CmdResult>, u: nat, n: nat, ready: string) {
    u + n <= |o| && forall j :: u <= j < u + n ==> o[j].ok && o[j].output != ready
  }

  /** One non-matching probe: a round and then the poll from the next result. */
  lemma PollUnfold(probe: Step, ready: string, topic: WaitTopic, o: seq<CmdResult>, u: nat, count: nat)
    requires u < |o| && o[u].ok && o[u].output != ready
    ensures Poll(probe, ready, topic, o, u, count)
         == Then(Run([Issued(probe), Warned(StillWaiting(topic, count))], u + 1, None),
                 Poll(probe, ready, topic, o, u + 1, count + 1))
  {
  }

  /** Event lists concatenate associatively. */
  lemma EventsAssoc(a: seq<Event>, b: seq<Event>, c: seq<Event>)
    ensures (a + b) + c == a + (b + c)
  {
  }

  /** `Then` is associative. */
  lemma ThenThen(a: Run, b: Run, c: Run)
    ensures Then(a, Then(b, c)) == Then(Then(a, b), c)
  {
    EventsAssoc(a.events, b.events, c.events);
  }

  /** Two steps of unfolding collapse into one: `first` then `later`, then `last`. */
  lemma ThenChain(whole: Run, first: seq<Event>, k: nat, next: Run, later: seq<Event>, m: nat, last: Run, all: seq<Event>)
    requires whole == Then(Run(first, k, None), next)
    requires next == Then(Run(later, m, None), last)
    requires all == first + later
    ensures whole == Then(Run(all, m, None), last)
  {
    EventsAssoc(first, later, last.events);
  }

  /** After `n` non-matching probes the poll has emitted exactly `n` rounds and goes on from there. */
  lemma {:induction false} PollRounds(probe: Step, ready: string, topic: WaitTopic, o: seq<CmdResult>, u: nat, count: nat, n: nat)
    requires NotReadyYet(o, u, n, ready)
    ensures Poll(probe, ready, topic, o, u, count)
         == Then(Run(Waits(probe, topic, count, n), u + n, None), Poll(probe, ready, topic, o, u + n, count + n))
    decreases n
  {
    var last := Poll(probe, ready, topic, o, u + n, count + n);
    if n == 0 {
      assert [] + last.events == last.events;
    } else {
      assert o[u].ok && o[u].output != ready;
      assert NotReadyYet(o, u + 1, n - 1, ready);
      var round := [Issued(probe), Warned(StillWaiting(topic, count))];
      var later := Waits(probe, topic, count + 1, n - 1);
      var next := Poll(probe, ready, topic, o, u + 1, count + 1);
      PollUnfold(probe, ready, topic, o, u, count);
      PollRounds(probe, ready, topic, o, u + 1, count + 1, n - 1);
      assert u + 1 + (n - 1) == u + n && count + 1 + (n - 1) == count + n;
      assert next == Then(Run(later, u + n, None), last);
      assert Waits(probe, topic, count, n) == round + later;
      ThenChain(Poll(probe, ready, topic, o, u, count), round, u + 1, next, later, u + n, last, Waits(probe, topic, count, n));
    }
  }

  /**
    A poll whose first `n` probes are not ready and whose next probe matches
    emits `n` waits counted 1..n and no wait after the matching probe; if that
    next probe fails instead, the poll halts on it, again with `n` waits.
  */
  lemma PollOutcome(probe: Step, ready: string, topic: WaitTopic, o: seq<CmdResult>, u: nat, n: nat)
    requires NotReadyYet(o, u, n, ready) && u + n < |o|
    ensures o[u + n].ok && o[u + n].output == ready ==>
      Poll(probe, ready, topic, o, u, 1) == Run(Waits(probe, topic, 1, n) + [Issued(probe)], u + n + 1, None)
    ensures !o[u + n].ok ==>
      Poll(probe, ready, topic, o, u, 1) == Run(Waits(probe, topic, 1, n) + [Issued(probe)], u + n + 1, Some(StepFailed(probe)))
  {
    PollRounds(probe, ready, topic, o, u, 1, n);
  }

  /** The k-th round of waits (counting from 0) carries the counter `from + k`. */
  lemma {:induction false} WaitsCounter(probe: Step, topic: WaitTopic, from: nat, n: nat, k: nat)
    requires k < n
    ensures Waits(probe, topic, from, n)[2 * k] == Issued(probe)
    ensures Waits(probe, topic, from, n)[2 * k + 1] == Warned(StillWaiting(topic, from + k))
    decreases n
  {
    if k > 0 {
      WaitsCounter(probe, topic, from + 1, n - 1, k - 1);
    }
  }

  /**
    A poll ends without a halt exactly when a probe matched: the last result
    it consumed is a successful `ready`, and every earlier one was a
    successful non-match.
  */
  lemma {:induction false} PollSucceedsOnlyWhenReady(probe: Step, ready: string, topic: WaitTopic, o: seq<CmdResult>, u: nat, count: nat)
    requires Poll(probe, ready, topic, o, u, count).halt.None?
    ensures var r := Poll(probe, ready, topic, o, u, count);
      u < r.used <= |o| && o[r.used - 1].ok && o[r.used - 1].output == ready &&
      NotReadyYet(o, u, r.used - 1 - u, ready)
    decreases |o| - u
  {
    if u < |o| && o[u].ok && o[u].output != ready {
      PollSucceedsOnlyWhenReady(probe, ready, topic, o, u + 1, count + 1);
    }
  }

  /** A probe error halts the poll: the halt is a failure of the probe itself. */
  lemma {:induction false} PollHaltsOnlyOnProbe(probe: Step, ready: string, topic: WaitTopic, o: seq<CmdResult>, u: nat, count: nat)
    ensures var r := Poll(probe, ready, topic, o, u, count);
      r.halt.Some? ==> r.halt == Some(StepFailed(probe)) || r.halt == Some(OracleExhausted)
    decreases |o| - u
  {
    if u < |o| && o[u].ok && o[u].output != ready {
      PollHaltsOnlyOnProbe(probe, ready, topic, o, u + 1, count + 1);
    }
  }

  // --------------------------------------------------------- pod restart

  /** The (namespace, pod) pair of one listing line, or None when `podsInfo[1]` would be out of range. */
  function PodOf(line: string): (pod: Option<(string, string)>)
    ensures pod.Some? <==> ' ' in line
  {
    SplitInTwo(line, ' ');
    var fields := Split(line, ' ');
    if |fields| < 2 then None else Some((fields[0], fields[1]))
  }

  /** Deletes the pod of each line in turn; the first failed delete halts. */
  function Deletes(lines: seq<string>, o: seq<CmdResult>, u: nat): (r: Run)
    ensures r.used >= u
    decreases |lines|
  {
    if lines == [] then Run([], u, None)
    else match PodOf(lines[0])
      case None => Run([], u, Some(PodLineWithoutSpace(lines[0])))
      case Some((ns, pod)) =>
        var d := ExecRun(DeletePod(ns, pod), Checked, o, u);
        if d.halt.Some? then d else Then(d, Deletes(lines[1..], o, d.used))
  }

  /** The delete step for a listing line that has a pod. */
  function DeleteOf(line: string): Step
    requires ' ' in line
  {
    var p := PodOf(line).value;
    DeletePod(p.0, p.1)
  }

  ghost predicate AllHavePods(lines: seq<string>) {
    forall i :: 0 <= i < |lines| ==> ' ' in lines[i]
  }

  /** The delete steps issued for `lines` when every one succeeds. */
  function DeleteEvents(lines: seq<string>): (es: seq<Event>)
    requires AllHavePods(lines)
    ensures |es| == |lines|
    decreases |lines|
  {
    if lines == [] then [] else [Issued(DeleteOf(lines[0]))] + DeleteEvents(lines[1..])
  }

  /** In line order: the i-th delete is the one of line i. */
  lemma {:induction false} DeleteEventsAt(lines: seq<string>, i: nat)
    requires AllHavePods(lines) && i < |lines|
    ensures DeleteEvents(lines)[i] == Issued(DeleteOf(lines[i]))
    decreases i
  {
    if i > 0 {
      DeleteEventsAt(lines[1..], i - 1);
    }
  }

  lemma {:induction false} DeleteEventsAppend(a: seq<string>, b: seq<string>)
    requires AllHavePods(a) && AllHavePods(b)
    ensures AllHavePods(a + b) && DeleteEvents(a + b) == DeleteEvents(a) + DeleteEvents(b)
    decreases |a|
  {
    assert AllHavePods(a + b) by {
      forall i | 0 <= i < |a + b| ensures ' ' in (a + b)[i] {
        if i < |a| { assert (a + b)[i] == a[i]; } else { assert (a + b)[i] == b[i - |a|]; }
      }
    }
    if a == [] {
      assert a + b == b;
    } else {
      assert (a + b)[1..] == a[1..] + b;
      assert (a + b)[0] == a[0];
      DeleteEventsAppend(a[1..], b);
    }
  }

  /** The listing, answered by `o[u]`, split into lines, then the deletes. */
  function Restart(listing: Step, o: seq<CmdResult>, u: nat): (r: Run)
    ensures r.used >= u
  {
    var l := ExecRun(listing, Checked, o, u);
    if l.halt.Some? then l else Then(l, Deletes(Split(o[u].output, '\n'), o, l.used))
  }

  /** A line with a pod whose delete succeeds: its delete, then the remaining lines. */
  lemma DeletesUnfold(lines: seq<string>, o: seq<CmdResult>, u: nat)
    requires lines != [] && ' ' in lines[0] && u < |o| && o[u].ok
    ensures Deletes(lines, o, u) == Then(Run([Issued(DeleteOf(lines[0]))], u + 1, None), Deletes(lines[1..], o, u + 1))
  {
  }

  /**
    When the first `k` lines all have a pod and their deletes succeed, the
    restart has issued exactly their deletes, in order, and goes on with line `k`.
  */
  lemma {:induction false} DeletesPrefix(lines: seq<string>, o: seq<CmdResult>, u: nat, k: nat)
    requires k <= |lines| && u + k <= |o|
    requires AllHavePods(lines[..k])
    requires forall j :: u <= j < u + k ==> o[j].ok
    ensures Deletes(lines, o, u) == Then(Run(DeleteEvents(lines[..k]), u + k, None), Deletes(lines[k..], o, u + k))
    decreases k
  {
    var last := Deletes(lines[k..], o, u + k);
    if k == 0 {
      assert lines[..0] == [] && lines[0..] == lines;
      assert [] + last.events == last.events;
    } else {
      var rest := lines[1..];
      assert lines[..k][0] == lines[0];
      assert rest[..k - 1] == lines[..k][1..];
      assert rest[k - 1..] == lines[k..];
      var d := [Issued(DeleteOf(lines[0]))];
      var next := Deletes(rest, o, u + 1);
      DeletesUnfold(lines, o, u);
      DeletesPrefix(rest, o, u + 1, k - 1);
      assert next == Then(Run(DeleteEvents(rest[..k - 1]), u + k, None), last);
      assert DeleteEvents(lines[..k]) == d + DeleteEvents(rest[..k - 1]);
      ThenChain(Deletes(lines, o, u), d, u + 1, next, DeleteEvents(rest[..k - 1]), u + k, last, DeleteEvents(lines[..k]));
    }
  }

  /** All deletes succeed: one delete per line, in line order, and no halt. */
  lemma DeletesAllSucceed(lines: seq<string>, o: seq<CmdResult>, u: nat)
    requires u + |lines| <= |o|
    requires AllHavePods(lines)
    requires forall j :: u <= j < u + |lines| ==> o[j].ok
    ensures Deletes(lines, o, u) == Run(DeleteEvents(lines), u + |lines|, None)
  {
    assert lines[..|lines|] == lines;
    DeletesPrefix(lines, o, u, |lines|);
  }

  /** The first failed delete (line `k`) halts: lines after it are never deleted. */
  lemma DeletesStopAtFirstFailure(lines: seq<string>, o: seq<CmdResult>, u: nat, k: nat)
    requires k < |lines| && u + k < |o|
    requires AllHavePods(lines[..k + 1])
    requires forall j :: u <= j < u + k ==> o[j].ok
    requires !o[u + k].ok
    ensures Deletes(lines, o, u) == Run(DeleteEvents(lines[..k + 1]), u + k + 1, Some(StepFailed(DeleteOf(lines[k]))))
  {
    assert lines[..k + 1][..k] == lines[..k];
    assert lines[..k + 1][k] == lines[k];
    assert AllHavePods(lines[..k]);
    DeletesPrefix(lines, o, u, k);
    assert lines[k..][0] == lines[k];
    assert lines[..k + 1] == lines[..k] + [lines[k]];
    DeleteEventsAppend(lines[..k], [lines[k]]);
  }

  /** A line without a space halts before its delete: Go indexes `podsInfo[1]` unchecked. */
  lemma DeletesHaltOnLineWithoutSpace(lines: seq<string>, o: seq<CmdResult>, u: nat, k: nat)
    requires k < |lines| && u + k <= |o|
    requires AllHavePods(lines[..k])
    requires ' ' !in lines[k]
    requires forall j :: u <= j < u + k ==> o[j].ok
    ensures Deletes(lines, o, u) == Run(DeleteEvents(lines[..k]), u + k, Some(PodLineWithoutSpace(lines[k])))
  {
    DeletesPrefix(lines, o, u, k);
    assert lines[k..][0] == lines[k];
  }

  // ------------------------------------------------------ the step lists

  function Perform(a: Action, o: seq<CmdResult>, u: nat): (r: Run)
    ensures r.used >= u
  {
    match a
    case Exec(s, p) => ExecRun(s, p, o, u)
    case Notify(w) => Run([Warned(w)], u, None)
    case Abort(h) => Run([], u, Some(h))
    case PollUntil(probe, ready, topic) => Poll(probe, ready, topic, o, u, 1)
    case RestartListed(listing) => Restart(listing, o, u)
  }

  /** The fail-fast driver: each action in order, stopping at the first halt. */
  function Interpret(plan: seq<Action>, o: seq<CmdResult>, u: nat): (r: Run)
    ensures r.used >= u
    decreases |plan|
  {
    if plan == [] then Run([], u, None)
    else
      var r := Perform(plan[0], o, u);
      if r.halt.Some? then r else Then(r, Interpret(plan[1..], o, r.used))
  }

  /** Running `p + q` is running `p` and then, unless `p` halted, `q` from where `p` stopped. */
  lemma {:induction false} InterpretAppend(p: seq<Action>, q: seq<Action>, o: seq<CmdResult>, u: nat)
    ensures Interpret(p + q, o, u) ==
      var r := Interpret(p, o, u);
      if r.halt.Some? then r else Then(r, Interpret(q, o, r.used))
    decreases |p|
  {
    if p == [] {
      assert p + q == q;
      var t := Interpret(q, o, u);
      assert [] + t.events == t.events;
    } else {
      assert (p + q)[0] == p[0];
      assert (p + q)[1..] == p[1..] + q;
      var r := Perform(p[0], o, u);
      if r.halt.None? {
        InterpretAppend(p[1..], q, o, r.used);
        var s := Interpret(p[1..], o, r.used);
        if s.halt.None? {
          ThenThen(r, s, Interpret(q, o, s.used));
        }
      }
    }
  }

  /** Fail-fast: once a prefix of the list halts, nothing after it runs. */
  lemma HaltedPrefixIsFinal(p: seq<Action>, q: seq<Action>, o: seq<CmdResult>, u: nat)
    requires Interpret(p, o, u).halt.Some?
    ensures Interpret(p + q, o, u) == Interpret(p, o, u)
  {
    InterpretAppend(p, q, o, u);
  }

  /** Actions that call the executor only for fixed steps (no loop over outputs). */
  predicate Fixed(a: Action) {
    a.Exec? || a.Notify? || a.Abort?
  }

  /** The events a fixed action emits when it runs. */
  function FixedEvents(plan: seq<Action>): seq<Event>
    requires forall i :: 0 <= i < |plan| ==> Fixed(plan[i])
    decreases |plan|
  {
    if plan == [] then []
    else
      (if plan[0].Exec? then [Issued(plan[0].step)]
       else if plan[0].Notify? then [Warned(plan[0].warning)]
       else []) + FixedEvents(plan[1..])
  }

  /** Oracle entries consumed by a list of fixed actions. */
  function Calls(plan: seq<Action>): nat
    decreases |plan|
  {
    if plan == [] then 0 else (if plan[0].Exec? then 1 else 0) + Calls(plan[1..])
  }

  /** A fixed action list where every call has an answer and no checked call fails, and no abort. */
  ghost predicate AllPass(plan: seq<Action>, o: seq<CmdResult>, u: nat)
    decreases |plan|
  {
    plan == [] ||
    (match plan[0]
     case Exec(_, p) => u < |o| && (p == Checked ==> o[u].ok) && AllPass(plan[1..], o, u + 1)
     case Notify(_) => AllPass(plan[1..], o, u)
     case Abort(_) => false
     case PollUntil(_, _, _) => false
     case RestartListed(_) => false)
  }

  /**
    Declared order: when every checked call of a fixed list succeeds, the
    list emits exactly its own steps and warnings, in order, and does not halt.
  */
  lemma {:induction false} FixedRunsInOrder(plan: seq<Action>, o: seq<CmdResult>, u: nat)
    requires forall i :: 0 <= i < |plan| ==> Fixed(plan[i])
    requires AllPass(plan, o, u)
    ensures Interpret(plan, o, u) == Run(FixedEvents(plan), u + Calls(plan), None)
    decreases |plan|
  {
    if plan != [] {
      FixedRunsInOrder(plan[1..], o, if plan[0].Exec? then u + 1 else u);
    }
  }

  /**
    The first failing checked call of a fixed list halts it there: the steps
    before it and the failing step itself are issued, nothing after.
  */
  lemma FixedStopsAtFirstFailure(p: seq<Action>, s: Step, q: seq<Action>, o: seq<CmdResult>, u: nat)
    requires forall i :: 0 <= i < |p| ==> Fixed(p[i])
    requires AllPass(p, o, u)
    requires u + Calls(p) < |o| && !o[u + Calls(p)].ok
    ensures Interpret(p + [Exec(s, Checked)] + q, o, u) ==
      Run(FixedEvents(p) + [Issued(s)], u + Calls(p) + 1, Some(StepFailed(s)))
  {
    FixedRunsInOrder(p, o, u);
    InterpretAppend(p, [Exec(s, Checked)] + q, o, u);
    assert p + [Exec(s, Checked)] + q == p + ([Exec(s, Checked)] + q);
  }

  // ------------------------------------------------- all-checked lists

  /** A list of steps each of which halts the procedure when it fails. */
  function Checks(steps: seq<Step>): (plan: seq<Action>)
    ensures |plan| == |steps|
    decreases |steps|
  {
    if steps == [] then [] else [Exec(steps[0], Checked)] + Checks(steps[1..])
  }

  /** The i-th action of a checked list checks the i-th step. */
  lemma {:induction false} ChecksAt(steps: seq<Step>, i: nat)
    requires i < |steps|
    ensures Checks(steps)[i] == Exec(steps[i], Checked)
    decreases i
  {
    if i > 0 {
      ChecksAt(steps[1..], i - 1);
    }
  }

  /** The events of issuing `steps` in order. */
  function Issues(steps: seq<Step>): (es: seq<Event>)
    ensures |es| == |steps|
    decreases |steps|
  {
    if steps == [] then [] else [Issued(steps[0])] + Issues(steps[1..])
  }

  lemma {:induction false} IssuesAppend(a: seq<Step>, b: seq<Step>)
    ensures Issues(a + b) == Issues(a) + Issues(b)
    decreases |a|
  {
    if a == [] {
      assert a + b == b;
    } else {
      assert (a + b)[0] == a[0] && (a + b)[1..] == a[1..] + b;
      IssuesAppend(a[1..], b);
    }
  }

  /** A checked first step that succeeds: it is issued, then the rest of the list runs. */
  lemma {:induction false} ChecksUnfold(steps: seq<Step>, o: seq<CmdResult>, u: nat)
    requires steps != [] && u < |o| && o[u].ok
    ensures Interpret(Checks(steps), o, u)
         == Then(Run([Issued(steps[0])], u + 1, None), Interpret(Checks(steps[1..]), o, u + 1))
  {
    var plan := Checks(steps);
    assert plan[0] == Exec(steps[0], Checked) && plan[1..] == Checks(steps[1..]);
    var first := Perform(plan[0], o, u);
    assert first == Run([Issued(steps[0])], u + 1, None);
    assert Interpret(plan, o, u) == Then(first, Interpret(plan[1..], o, u + 1));
  }

  /** While results succeed, a checked list issues its steps in order and goes on with the rest. */
  lemma {:induction false} ChecksPrefix(steps: seq<Step>, o: seq<CmdResult>, u: nat, k: nat)
    requires k <= |steps| && u + k <= |o|
    requires forall j :: u <= j < u + k ==> o[j].ok
    ensures Interpret(Checks(steps), o, u)
         == Then(Run(Issues(steps[..k]), u + k, None), Interpret(Checks(steps[k..]), o, u + k))
    decreases k
  {
    var last := Interpret(Checks(steps[k..]), o, u + k);
    if k == 0 {
      assert steps[..0] == [] && steps[0..] == steps;
      assert Issues(steps[..0]) == [];
      assert [] + last.events == last.events;
    } else {
      var rest := steps[1..];
      var first := [Issued(steps[0])];
      var later := Issues(rest[..k - 1]);
      var next := Interpret(Checks(rest), o, u + 1);
      ChecksUnfold(steps, o, u);
      assert rest[k - 1..] == steps[k..] && u + 1 + (k - 1) == u + k;
      ChecksPrefix(rest, o, u + 1, k - 1);
      assert next == Then(Run(later, u + k, None), last);
      assert rest[..k - 1] == steps[..k][1..];
      assert Issues(steps[..k]) == first + later;
      ThenChain(Interpret(Checks(steps), o, u), first, u + 1, next, later, u + k, last, Issues(steps[..k]));
    }
  }

  /** Every step of a checked list succeeds: all are issued, in order, and the list does not halt. */
  lemma ChecksAllSucceed(steps: seq<Step>, o: seq<CmdResult>, u: nat)
    requires u + |steps| <= |o|
    requires forall j :: u <= j < u + |steps| ==> o[j].ok
    ensures Interpret(Checks(steps), o, u) == Run(Issues(steps), u + |steps|, None)
  {
    ChecksPrefix(steps, o, u, |steps|);
    assert steps[..|steps|] == steps;
    assert steps[|steps|..] == [];
    assert Issues(steps) + [] == Issues(steps);
  }

  /** The first failing step of a checked list halts it: it and the steps before it are issued, no later one. */
  lemma ChecksStopAtFirstFailure(steps: seq<Step>, o: seq<CmdResult>, u: nat, k: nat)
    requires k < |steps| && u + k < |o|
    requires forall j :: u <= j < u + k ==> o[j].ok
    requires !o[u + k].ok
    ensures Interpret(Checks(steps), o, u) == Run(Issues(steps[..k + 1]), u + k + 1, Some(StepFailed(steps[k])))
  {
    ChecksPrefix(steps, o, u, k);
    assert Checks(steps[k..])[0] == Exec(steps[k], Checked);
    assert steps[..k + 1] == steps[..k] + [steps[k]];
    IssuesAppend(steps[..k], [steps[k]]);
  }

  // --------------------------------------------------- which steps appear

  /** Whether running action `a` can ever issue step `s`. */
  predicate MayIssue(a: Action, s: Step) {
    match a
    case Exec(t, _) => t == s
    case PollUntil(probe, _, _) => probe == s
    case RestartListed(listing) => listing == s || s.DeletePod?
    case Notify(_) => false
    case Abort(_) => false
  }

  lemma {:induction false} PollIssuesOnlyProbe(probe: Step, ready: string, topic: WaitTopic, o: seq<CmdResult>, u: nat, count: nat, s: Step)
    requires s != probe
    ensures Issued(s) !in Poll(probe, ready, topic, o, u, count).events
    decreases |o| - u
  {
    if u < |o| && o[u].ok && o[u].output != ready {
      PollIssuesOnlyProbe(probe, ready, topic, o, u + 1, count + 1, s);
    }
  }

  lemma {:induction false} DeletesIssueOnlyDeletes(lines: seq<string>, o: seq<CmdResult>, u: nat, s: Step)
    requires !s.DeletePod?
    ensures Issued(s) !in Deletes(lines, o, u).events
    decreases |lines|
  {
    if lines != [] && PodOf(lines[0]).Some? {
      var p := PodOf(lines[0]).value;
      var d := ExecRun(DeletePod(p.0, p.1), Checked, o, u);
      if d.halt.None? {
        DeletesIssueOnlyDeletes(lines[1..], o, d.used, s);
      }
    }
  }

  /** A step that no action of the list can issue is never issued by it. */
  lemma {:induction false} NeverIssued(plan: seq<Action>, o: seq<CmdResult>, u: nat, s: Step)
    requires forall i :: 0 <= i < |plan| ==> !MayIssue(plan[i], s)
    ensures Issued(s) !in Interpret(plan, o, u).events
    decreases |plan|
  {
    if plan != [] {
      match plan[0] {
        case PollUntil(probe, ready, topic) => PollIssuesOnlyProbe(probe, ready, topic, o, u, 1, s);
        case RestartListed(listing) =>
          if ExecRun(listing, Checked, o, u).halt.None? {
            DeletesIssueOnlyDeletes(Split(o[u].output, '\n'), o, u + 1, s);
          }
        case _ =>
      }
      var r := Perform(plan[0], o, u);
      if r.halt.None? {
        NeverIssued(plan[1..], o, r.used, s);
      }
    }
  }
}
