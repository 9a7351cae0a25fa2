# OpenYurt bootstrap sequencer and edge-node hostname, in Dafny

This project models the `easy_openyurt yurt` subcommand, which turns a
Kubernetes cluster into an OpenYurt cluster. It covers:

- the dispatch on node role and operation, with its checks of required
  parameters (`ParseSubcommandYurt`);
- the environment check in front of master init (`CheckYurtMasterEnvironment`);
- the three bootstrap procedures: `YurtMasterInit`, `YurtMasterExpand` and
  `YurtWorkerJoin`;
- the node-identity helpers `GetHostname` and `GetPodManifestPath` of the
  `edgenode` package, as their table-driven test pins them down.

Every external call is one `Step`: a shell command, a package install, a
download or a `PATH` lookup. Each call is answered by the next entry of a
finite sequence of results, the *oracle*. A `CmdResult` is the captured
output together with whether `err` was nil. What a procedure does is the
sequence of `Event`s it emits, meaning the steps it issues and the warnings
it prints, plus the `Halt` it ends with, if any. A halt is the process exit
that `logs.CheckError*` or `logs.FatalPrintf` causes.

The model has five modules:

- `Strings` holds the parts of Go's `strings` package the core uses:
  `Split`, `TrimSpace` and `ToLower`, each with its partner (`Join`, the
  tightness facts, lower-case idempotence).
- `EdgeNode` holds `GetHostname`. The OS lookup `osHostName`, which the test
  stubs, is a function parameter.
- `Steps` holds the semantics:
  - the readiness poll `Poll` and the pod restart `Restart`/`Deletes`;
  - the fail-fast driver `Interpret`, which runs a step list and stops at
    the first halt.
- `Procedures` writes each procedure as a step list and proves what the
  source promises about it: order, gating, fail-fast and dispatch.
- `Yurt` holds the imperative code as the class `Bootstrap`:
  - its fields are the configuration, the event trace and the oracle cursor;
  - its methods run the real loops (the two polls and the delete loop) and
    the fixed step lists;
  - each method's `ensures` ties the new state to the functions of `Steps`
    and `Procedures`.

The model follows the code where it departs from a uniform fail-fast
policy:

- The master-as-cloud taints ignore their results, because the code
  discards them.
- When helm is missing on a distribution other than ubuntu, master init is
  fatal.
- A pod-listing line without a space is a Go panic (`podsInfo[1]` out of
  range). The model halts there with `PodLineWithoutSpace`. An empty listing
  is one empty line after `strings.Split`, so it halts the same way.
- The worker join ignores the results of its three kubelet commands. Each
  of them is followed by a "Failed to configure kubelet!" check, which shows
  they were meant to be fatal, but the check tests a stale `err`. The
  dispatch and `Bootstrap.WorkerJoin` run the join as written. The
  all-checked join is modelled beside it, as `WorkerJoinPlan` and
  `Bootstrap.WorkerJoinCorrected` (see Findings).

## Model

| member | source | states |
|---|---|---|
| EdgeNode.GetPodManifestPath | pkg/yurtadm/util/edgenode/edgenode_test.go:23-28 | the manifest directory is "/etc/kubernetes/manifests" |
| EdgeNode.GetHostname | pkg/yurtadm/util/edgenode/edgenode_test.go:31-97 | an error comes with the empty name; a success is trimmed and has no upper-case letter; a non-empty override fails as invalid exactly when it is white space only, never fails the lookup, and gives a non-empty name no longer than the override; an empty override fails exactly when the provider fails and is never called invalid |
| EdgeNode.OverrideIgnoresProvider | pkg/yurtadm/util/edgenode/edgenode_test.go:47-70 | a non-empty override gives the same result whatever the provider answers |
| EdgeNode.WhitespaceOnlyIsInvalid | pkg/yurtadm/util/edgenode/edgenode_test.go:65-70 | a white-space-only override is the invalid-hostname error with the empty name |
| EdgeNode.EmptyOverrideUsesProvider | pkg/yurtadm/util/edgenode/edgenode_test.go:71-76 | an empty override gives the provider's name, trimmed and lower-cased |
| EdgeNode.OverrideIsNormalized | pkg/yurtadm/util/edgenode/edgenode_test.go:47-58 | an override that is not all white space gives its trimmed, lower-cased form without error |
| EdgeNode.TightOverrideIsLowered | pkg/yurtadm/util/edgenode/edgenode_test.go:47-51 | an override with no white space at its ends is only lower-cased |
| EdgeNode.LeadingSpaceIsDropped | pkg/yurtadm/util/edgenode/edgenode_test.go:53-57 | white space in front of a canonical name is dropped and the name is kept |
| EdgeNode.NormalNameIsKept | pkg/yurtadm/util/edgenode/edgenode_test.go:59-63 | a canonical name is its own hostname |
| EdgeNode.GetHostnameIdempotent | pkg/yurtadm/util/edgenode/edgenode_test.go:59-63 | feeding a successful non-empty result back as the override gives the same result |
| EdgeNode.TestUpperCase | pkg/yurtadm/util/edgenode/edgenode_test.go:47-51 | "TEST_HOST" gives "test_host" without error |
| EdgeNode.TestLeadingSpace | pkg/yurtadm/util/edgenode/edgenode_test.go:53-57 | "    test_host" gives "test_host" without error |
| EdgeNode.TestValidName | pkg/yurtadm/util/edgenode/edgenode_test.go:59-63 | "test_host" gives "test_host" without error |
| EdgeNode.TestInvalidName | pkg/yurtadm/util/edgenode/edgenode_test.go:65-70 | "    " gives the empty name and an error |
| EdgeNode.TestFromOs | pkg/yurtadm/util/edgenode/edgenode_test.go:71-76 | the empty override with the provider stubbed to "test_host" gives "test_host" |
| Strings.Split | scripts/easy_openyurt/src/easy_openyurt/yurt/yurt.go:284-286 | there is one more piece than there are separators |
| Strings.JoinSplit | scripts/easy_openyurt/src/easy_openyurt/yurt/yurt.go:284 | joining the pieces with the separator gives the input back |
| Strings.SplitJoin | scripts/easy_openyurt/src/easy_openyurt/yurt/yurt.go:284-286 | splitting a join of separator-free pieces gives the pieces back |
| Strings.SplitPiecesHaveNoSep | scripts/easy_openyurt/src/easy_openyurt/yurt/yurt.go:284-286 | no piece holds the separator |
| Strings.SplitInTwo | scripts/easy_openyurt/src/easy_openyurt/yurt/yurt.go:286-287 | a line splits into at least two pieces exactly when it holds the separator, so `podsInfo[1]` exists exactly then |
| Strings.TrimSpace | pkg/yurtadm/util/edgenode/edgenode_test.go:53-70 | the result has no white space at either end; it is empty exactly when the input is white space only; it is the slice after the leading white space, and everything outside that slice is white space |
| Strings.TrimTight | pkg/yurtadm/util/edgenode/edgenode_test.go:59-63 | trimming a string with no white space at its ends changes nothing |
| Strings.TrimSpacePrefix | pkg/yurtadm/util/edgenode/edgenode_test.go:53-57 | a white-space prefix in front of a tight string is removed and nothing else |
| Strings.LeadingOfSpacePrefix | pkg/yurtadm/util/edgenode/edgenode_test.go:53-57 | the leading white space of `pre + s` is exactly `pre` when `s` does not start with white space |
| Strings.ToLower | pkg/yurtadm/util/edgenode/edgenode_test.go:47-51 | same length; each character is lower-cased in place; no upper-case letter is left |
| Strings.ToLowerIdempotent | pkg/yurtadm/util/edgenode/edgenode_test.go:47-63 | lower-casing twice is lower-casing once |
| Strings.ToLowerOfLower | pkg/yurtadm/util/edgenode/edgenode_test.go:59-63 | a string with no upper-case letter is unchanged |
| Strings.ToLowerKeepsSpace | pkg/yurtadm/util/edgenode/edgenode_test.go:47-58 | lower-casing keeps a tight string tight and keeps a non-empty string non-empty |
| Steps.ExecRun | scripts/easy_openyurt/src/easy_openyurt/yurt/yurt.go:143-144 | an answered call issues its step and consumes one result; it halts exactly when the step is checked and failed, and the halt names that step |
| Steps.Poll | scripts/easy_openyurt/src/easy_openyurt/yurt/yurt.go:203-215 | the readiness loop: a probe per round, a wait message between rounds, a halt on a failed probe; it never moves the cursor back; `PollOutcome` and `PollSucceedsOnlyWhenReady` state what it computes |
| Steps.PollRounds | scripts/easy_openyurt/src/easy_openyurt/yurt/yurt.go:203-215 | `n` successful, non-matching probes emit `n` rounds of probe-then-wait and the poll goes on from there with its counter advanced by `n` |
| Steps.PollOutcome | scripts/easy_openyurt/src/easy_openyurt/yurt/yurt.go:203-215 | after `n` non-matching probes, a matching probe ends the poll with exactly `n` waits and no halt, and a failed probe halts on the probe after the same `n` waits |
| Steps.WaitsCounter | scripts/easy_openyurt/src/easy_openyurt/yurt/yurt.go:203-212 | the k-th wait message carries the counter `from + k`, so the counters start at 1 and go up by one |
| Steps.PollSucceedsOnlyWhenReady | scripts/easy_openyurt/src/easy_openyurt/yurt/yurt.go:204-209 | a poll without a halt consumed a last result that is a successful exact match, and every earlier one was a successful non-match |
| Steps.PollHaltsOnlyOnProbe | scripts/easy_openyurt/src/easy_openyurt/yurt/yurt.go:205-206 | a poll halts only on a failure of its own probe, or when the results run out |
| Steps.PollIssuesOnlyProbe | scripts/easy_openyurt/src/easy_openyurt/yurt/yurt.go:204-215 | a poll issues no step other than its probe |
| Steps.PodOf | scripts/easy_openyurt/src/easy_openyurt/yurt/yurt.go:286-287 | a listing line names a pod exactly when it holds a space |
| Steps.Deletes | scripts/easy_openyurt/src/easy_openyurt/yurt/yurt.go:285-290 | the delete loop over the listing lines; it never moves the cursor back; `DeletesAllSucceed`, `DeletesStopAtFirstFailure` and `DeletesHaltOnLineWithoutSpace` state what it computes |
| Steps.Restart | scripts/easy_openyurt/src/easy_openyurt/yurt/yurt.go:280-290 | the pod listing followed by the delete loop over its output split at newlines; it never moves the cursor back; `RestartTwoPods` states it on a concrete listing |
| Steps.DeleteEventsAt | scripts/easy_openyurt/src/easy_openyurt/yurt/yurt.go:285-288 | the i-th delete is the one of line i |
| Steps.DeletesPrefix | scripts/easy_openyurt/src/easy_openyurt/yurt/yurt.go:285-290 | while the lines have pods and their deletes succeed, the restart issues exactly their deletes, in order, then goes on with the next line |
| Steps.DeletesAllSucceed | scripts/easy_openyurt/src/easy_openyurt/yurt/yurt.go:285-290 | when every delete succeeds, there is one delete per line in line order and no halt |
| Steps.DeletesStopAtFirstFailure | scripts/easy_openyurt/src/easy_openyurt/yurt/yurt.go:288-289 | the first failed delete halts on it; no later line is deleted |
| Steps.DeletesHaltOnLineWithoutSpace | scripts/easy_openyurt/src/easy_openyurt/yurt/yurt.go:286-287 | a line without a space halts before any delete of its own; the earlier lines were all deleted |
| Steps.DeletesIssueOnlyDeletes | scripts/easy_openyurt/src/easy_openyurt/yurt/yurt.go:285-290 | the delete loop issues only pod deletes |
| Steps.Interpret | scripts/easy_openyurt/src/easy_openyurt/yurt/yurt.go:134-241 | the fail-fast driver over a step list; it never moves the cursor back; `InterpretAppend`, `HaltedPrefixIsFinal`, `FixedRunsInOrder` and `FixedStopsAtFirstFailure` state what it computes |
| Steps.InterpretAppend | scripts/easy_openyurt/src/easy_openyurt/yurt/yurt.go:134-241 | running `p + q` is running `p`, then, unless `p` halted, running `q` from where `p` stopped |
| Steps.HaltedPrefixIsFinal | scripts/easy_openyurt/src/easy_openyurt/yurt/yurt.go:134-241 | once a prefix halts, nothing after it runs or is issued |
| Steps.FixedRunsInOrder | scripts/easy_openyurt/src/easy_openyurt/yurt/yurt.go:217-240 | when no checked call fails, a fixed list emits exactly its own steps and warnings in order, consumes one result per call and does not halt |
| Steps.FixedStopsAtFirstFailure | scripts/easy_openyurt/src/easy_openyurt/yurt/yurt.go:217-240 | the first failing checked call halts: the steps before it and the failing step are issued, nothing after it |
| Steps.ChecksPrefix | scripts/easy_openyurt/src/easy_openyurt/yurt/yurt.go:294-317 | while the results succeed, an all-checked list issues its steps in order and goes on with the rest |
| Steps.ChecksAt | scripts/easy_openyurt/src/easy_openyurt/yurt/yurt.go:294-317 | the i-th action of an all-checked list is the checked call of the i-th step |
| Steps.ChecksAllSucceed | scripts/easy_openyurt/src/easy_openyurt/yurt/yurt.go:294-317 | an all-checked list whose calls all succeed issues every step, in order, and does not halt |
| Steps.ChecksStopAtFirstFailure | scripts/easy_openyurt/src/easy_openyurt/yurt/yurt.go:294-317 | the first failing step of an all-checked list halts on it; the steps before it and it are issued, no later one |
| Steps.NeverIssued | scripts/easy_openyurt/src/easy_openyurt/yurt/yurt.go:196-220 | a step that no action of a list can issue never appears among the list's events |
| Procedures.OSDependencies | scripts/easy_openyurt/src/easy_openyurt/yurt/yurt.go:119-128 | exactly ubuntu, rocky linux and centos are supported; ubuntu gets its five packages and the other two get none |
| Procedures.CheckEnvironmentSpec | scripts/easy_openyurt/src/easy_openyurt/yurt/yurt.go:94-131 | the environment check consumes at most two results; when it does not halt it consumed exactly the two lookups and the OS is supported; `EnvironmentCheckEffect` states the rest |
| Procedures.LookupRun | scripts/easy_openyurt/src/easy_openyurt/yurt/yurt.go:100-116 | a lookup issues itself and consumes one result; a missing tool adds its warning and never halts |
| Procedures.EnvironmentCheckEffect | scripts/easy_openyurt/src/easy_openyurt/yurt/yurt.go:94-131 | each installed flag is set exactly when its lookup succeeds (and never cleared); the events are the two lookups with their warnings; the check halts exactly for an unsupported OS, and then leaves the dependencies alone; otherwise the dependencies follow the OS; nothing else in the configuration changes |
| Procedures.TaintPlan | scripts/easy_openyurt/src/easy_openyurt/yurt/yurt.go:146-151 | the taint block is there exactly when the master is also a cloud node, and none of its calls is checked |
| Procedures.HelmPlan | scripts/easy_openyurt/src/easy_openyurt/yurt/yurt.go:153-174 | the helm block is empty exactly when helm is installed, and it holds only single calls, messages or the abort, never a loop |
| Procedures.KustomizePlan | scripts/easy_openyurt/src/easy_openyurt/yurt/yurt.go:176-189 | the kustomize block is empty exactly when kustomize is installed, and every call in it is checked |
| Procedures.MasterInitPlan | scripts/easy_openyurt/src/easy_openyurt/yurt/yurt.go:134-241 | master init starts with the checked dependency install, holds the yurt-app-manager poll right after the steps in front of it, and ends with the checked raven-agent deploy |
| Procedures.MasterInitMembers | scripts/easy_openyurt/src/easy_openyurt/yurt/yurt.go:141-241 | an action is in master init exactly when it is in one of its blocks: the dependency install, the taints, helm, kustomize, the clone, app-manager deploy and poll, or the steps after the poll |
| Procedures.MasterInitSpec | scripts/easy_openyurt/src/easy_openyurt/yurt/yurt.go:134-241 | master init leaves the configuration that the environment check leaves |
| Procedures.InstallGates | scripts/easy_openyurt/src/easy_openyurt/yurt/yurt.go:146-189 | the helm install is in master init exactly when helm is missing and the OS is ubuntu; a missing helm on any other OS is the fatal abort; the kustomize install is there exactly when kustomize is missing; the taint is there exactly when the master is also a cloud node |
| Procedures.BothToolsFoundSkipInstalls | scripts/easy_openyurt/src/easy_openyurt/yurt/yurt.go:100-189 | when both lookups succeed, both flags are set and master init holds no install step and no abort |
| Procedures.HeadAvoidsControllerManager | scripts/easy_openyurt/src/easy_openyurt/yurt/yurt.go:141-199 | nothing before the yurt-app-manager poll can deploy yurt-controller-manager |
| Procedures.DeployComesAfterHead | scripts/easy_openyurt/src/easy_openyurt/yurt/yurt.go:196-220 | when master init issues the yurt-controller-manager deploy, the steps before the poll did not halt and the deploy comes from the poll and the steps after it |
| Procedures.PollGuardsTail | scripts/easy_openyurt/src/easy_openyurt/yurt/yurt.go:201-220 | from the poll on, a yurt-controller-manager deploy means the poll ended without a halt and the last result it consumed was a successful "1/1 Running"; the deploy is issued by the steps after the poll |
| Procedures.ControllerManagerWaitsForAppManager | scripts/easy_openyurt/src/easy_openyurt/yurt/yurt.go:196-220 | when master init issues the yurt-controller-manager deploy, the steps before the poll did not halt, the yurt-app-manager poll that follows them consumed at least one result and ended without a halt on a successful "1/1 Running", and the deploy comes from the steps run after that poll |
| Procedures.EdgeLabel | scripts/easy_openyurt/src/easy_openyurt/yurt/yurt.go:251-255 | the label is "true" exactly for an edge worker and "false" exactly for a cloud worker |
| Procedures.MasterExpandPlan | scripts/easy_openyurt/src/easy_openyurt/yurt/yurt.go:244-291 | master expand is four actions and none of them is a call whose result is ignored |
| Procedures.MasterExpandPrelude | scripts/easy_openyurt/src/easy_openyurt/yurt/yurt.go:249-268 | the label comes first and the annotation second; a failed label halts with only itself issued; a failed annotation halts with exactly the two issued; otherwise the poll and the restart follow |
| Procedures.PodLine | scripts/easy_openyurt/src/easy_openyurt/yurt/yurt.go:286-288 | a line "ns pod" holds a space and names the delete of (ns, pod) |
| Procedures.TwoPodListing | scripts/easy_openyurt/src/easy_openyurt/yurt/yurt.go:284-287 | a two-line listing splits into two lines with pods, whose deletes are those of the two pairs |
| Procedures.TwoDeletes | scripts/easy_openyurt/src/easy_openyurt/yurt/yurt.go:285-289 | on two lines with pods, after a successful first delete, the second delete's result decides whether the loop halts |
| Procedures.RestartTwoPods | scripts/easy_openyurt/src/easy_openyurt/yurt/yurt.go:280-290 | a two-line listing gives the listing step and exactly the two deletes, in listing order; a failed second delete halts on it and the first is not repeated |
| Procedures.WorkerJoinPlanAsWritten | scripts/easy_openyurt/src/easy_openyurt/yurt/yurt.go:294-317 | the join as written: one call per join step in order, the Yurthub step checked and the kubelet steps not |
| Procedures.KubeletFailuresAreIgnored | scripts/easy_openyurt/src/easy_openyurt/yurt/yurt.go:294-317 | in the join as written, once Yurthub is set up all four steps are issued and the join succeeds whatever the kubelet steps answer; a failed Yurthub setup halts alone |
| Procedures.WorkerJoinPlan | scripts/easy_openyurt/src/easy_openyurt/yurt/yurt.go:294-317 | the corrected join: four calls, one per join step in order, all checked |
| Procedures.WorkerJoinSucceeds | scripts/easy_openyurt/src/easy_openyurt/yurt/yurt.go:294-317 | in the corrected join, when all four commands succeed they are issued in order and the join does not halt |
| Procedures.WorkerJoinStopsAtFirstFailure | scripts/easy_openyurt/src/easy_openyurt/yurt/yurt.go:294-317 | in the corrected join, the first failing command halts on it, and no later command is issued |
| Procedures.DispatchSpec | scripts/easy_openyurt/src/easy_openyurt/yurt/yurt.go:19-92 | the dispatch changes the configuration only for master init |
| Procedures.DispatchChecksFirst | scripts/easy_openyurt/src/easy_openyurt/yurt/yurt.go:19-92 | an unknown role, an unknown operation, a missing worker node name, or a missing API server address or token (checked in that order) each halt with their own reason before any step; otherwise master init runs the environment check and its list, master expand runs its list, and worker join runs the join as written |
| Yurt.Bootstrap.Exec | scripts/easy_openyurt/src/easy_openyurt/yurt/yurt.go:143-144 | one executor call appends its events, advances the cursor and returns the halt, as `ExecRun` says |
| Yurt.Bootstrap.LookPath | scripts/easy_openyurt/src/easy_openyurt/yurt/yurt.go:100-116 | one lookup behaves as `LookupRun`; `found` holds exactly when the answer is a success |
| Yurt.Bootstrap.PollUntil | scripts/easy_openyurt/src/easy_openyurt/yurt/yurt.go:201-215 | the readiness loop leaves the trace, the cursor and the halt that `Poll` gives with the counter starting at 1 |
| Yurt.Bootstrap.RestartPods | scripts/easy_openyurt/src/easy_openyurt/yurt/yurt.go:280-290 | the listing and the delete loop leave the trace, the cursor and the halt that `Restart` gives |
| Yurt.Bootstrap.Execute | scripts/easy_openyurt/src/easy_openyurt/yurt/yurt.go:134-241 | running a step list in order leaves the trace, the cursor and the halt that `Interpret` gives |
| Yurt.Bootstrap.CheckEnvironment | scripts/easy_openyurt/src/easy_openyurt/yurt/yurt.go:94-131 | the configuration, trace, cursor and halt are those of `CheckEnvironmentSpec` |
| Yurt.Bootstrap.MasterInit | scripts/easy_openyurt/src/easy_openyurt/yurt/yurt.go:134-241 | the environment check, then, unless it halted, the master-init list against the updated configuration |
| Yurt.Bootstrap.MasterExpand | scripts/easy_openyurt/src/easy_openyurt/yurt/yurt.go:244-291 | label, annotate, node poll and restart, as `Interpret` of the master-expand list gives; the configuration is unchanged |
| Yurt.Bootstrap.WorkerJoin | scripts/easy_openyurt/src/easy_openyurt/yurt/yurt.go:294-317 | the join as written, where only the Yurthub step is checked: trace, cursor and halt are those of `Interpret` of `WorkerJoinPlanAsWritten`; the configuration is unchanged |
| Yurt.Bootstrap.WorkerJoinCorrected | scripts/easy_openyurt/src/easy_openyurt/yurt/yurt.go:294-317 | the join as evidently intended, every command checked: trace, cursor and halt are those of `Interpret` of `WorkerJoinPlan`; the configuration is unchanged |
| Yurt.Bootstrap.ParseSubcommandYurt | scripts/easy_openyurt/src/easy_openyurt/yurt/yurt.go:19-92 | the new state and the halt are those of `DispatchSpec`, so worker join runs as written |

## Left out

- Shell command strings and templates are left out: `GetRestartPodsShell`,
  `GetYurtHubConfig` and `GetKubeletConfig`. A step is named by what it does
  and by the arguments that decide its identity, such as a node name, a
  version or a namespace and pod.
- The command executor, package installs, downloads and `exec.LookPath`
  are I/O. They become the oracle of results. A download's returned file
  path is not modelled.
- Flag parsing, `-h`/`--help` with its `os.Exit(0)`, and the Go panic when
  fewer than two arguments are given are left out. The flag values are
  taken as already in the configuration.
- Info, wait and success messages are not events; only warnings are.
- Temporary directory creation and clean-up (`CreateTmpDir` and the
  deferred `CleanUpTmpDir`) are left out.
- The one-second sleep between probes is left out.
- Steps.Poll: the source polls without a bound. The model stops with
  `OracleExhausted` when the supplied results run out, so an endless poll
  is not modelled.
- Strings.ToLower: only ASCII `A`-`Z` are folded. Go's `strings.ToLower`
  also folds non-ASCII letters.
- edgenode.go is not part of this model. `GetHostname` follows its test
  table. On the provider path the model trims and lower-cases the name, and
  does not check it again for emptiness.
- Concurrency is left out, since the procedures are single-threaded.

## Findings

| source | as written | input that shows it | evidently intended | confidence | as-written member | corrected member |
|---|---|---|---|---|---|---|
| scripts/easy_openyurt/src/easy_openyurt/yurt/yurt.go:311-316 | the three kubelet commands discard their error; the checks at 312, 314 and 316 test the `err` left by the Yurthub step at 301, which is nil by then | Yurthub setup succeeds and the kubelet config write fails: the join still rewrites the kubelet arguments, restarts kubelet and reports success | a failed kubelet command halts the join with its "Failed to configure kubelet!" message | not executed | Procedures.KubeletFailuresAreIgnored | Procedures.WorkerJoinStopsAtFirstFailure |
