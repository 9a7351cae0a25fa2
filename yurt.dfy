/**
  The `yurt` package as the program runs it: the global configuration and
  the output of the run live in an object that the procedures update step by
  step. Each external call takes the next entry of the oracle. Each method
  leaves behind exactly what the matching function of `Steps` or
  `Procedures` describes, so the lemmas proved there hold of it.
*/
module Yurt {
  import opened Wrappers
  import opened Strings
  import opened Steps
  import opened Procedures

  /**
    Loop bookkeeping: `start` followed by the events of `whole` is the trace `t`
    so far followed by the events of `rest`, and `rest` ends where `whole` ends.
  */
  ghost predicate Continues(start: seq<Event>, t: seq<Event>, rest: Run, whole: Run) {
    start + whole.events == t + rest.events && whole.used == rest.used && whole.halt == rest.halt
  }

  /** One more unsuccessful probe: the loop goes on with the next result and the next counter. */
  lemma PollAdvance(start: seq<Event>, t: seq<Event>, probe: Step, ready: string, topic: WaitTopic,
                    o: seq<CmdResult>, u: nat, count: nat, whole: Run)
    requires Continues(start, t, Poll(probe, ready, topic, o, u, count), whole)
    requires u < |o| && o[u].ok && o[u].output != ready
    ensures Continues(start, t + [Issued(probe)] + [Warned(StillWaiting(topic, count))],
                      Poll(probe, ready, topic, o, u + 1, count + 1), whole)
  {
    var next := Poll(probe, ready, topic, o, u + 1, count + 1);
    assert t + ([Issued(probe), Warned(StillWaiting(topic, count))] + next.events)
        == t + [Issued(probe)] + [Warned(StillWaiting(topic, count))] + next.events;
  }

  /** The probe that ends the loop: no answer, a failure, or the ready output. */
  lemma PollExit(start: seq<Event>, t: seq<Event>, probe: Step, ready: string, topic: WaitTopic,
                 o: seq<CmdResult>, u: nat, count: nat, whole: Run)
    requires Continues(start, t, Poll(probe, ready, topic, o, u, count), whole)
    ensures u >= |o| ==> start + whole.events == t && whole.used == u && whole.halt == Some(OracleExhausted)
    ensures u < |o| && !o[u].ok ==>
      start + whole.events == t + [Issued(probe)] && whole.used == u + 1 && whole.halt == Some(StepFailed(probe))
    ensures u < |o| && o[u].ok && o[u].output == ready ==>
      start + whole.events == t + [Issued(probe)] && whole.used == u + 1 && whole.halt.None?
  {
    assert t + [] == t;
  }

  /** One more line deleted: the loop goes on with the rest of the listing. */
  lemma DeletesAdvance(start: seq<Event>, t: seq<Event>, rest: seq<string>, o: seq<CmdResult>, u: nat, whole: Run)
    requires Continues(start, t, Deletes(rest, o, u), whole)
    requires rest != [] && ' ' in rest[0] && u < |o| && o[u].ok
    ensures Continues(start, t + [Issued(DeleteOf(rest[0]))], Deletes(rest[1..], o, u + 1), whole)
  {
    EventsAssoc(t, [Issued(DeleteOf(rest[0]))], Deletes(rest[1..], o, u + 1).events);
  }

  /** The ways the delete loop ends: all lines done, a line without a pod, or a failed delete. */
  lemma DeletesExit(start: seq<Event>, t: seq<Event>, rest: seq<string>, o: seq<CmdResult>, u: nat, whole: Run)
    requires Continues(start, t, Deletes(rest, o, u), whole)
    ensures rest == [] ==> start + whole.events == t && whole.used == u && whole.halt.None?
    ensures rest != [] && ' ' !in rest[0] ==>
      start + whole.events == t && whole.used == u && whole.halt == Some(PodLineWithoutSpace(rest[0]))
    ensures rest != [] && ' ' in rest[0] && u >= |o| ==>
      start + whole.events == t && whole.used == u && whole.halt == Some(OracleExhausted)
    ensures rest != [] && ' ' in rest[0] && u < |o| && !o[u].ok ==>
      start + whole.events == t + [Issued(DeleteOf(rest[0]))] && whole.used == u + 1 &&
      whole.halt == Some(StepFailed(DeleteOf(rest[0])))
  {
    assert t + [] == t;
  }

  /** One more entry of the step list ran without a halt. */
  lemma InterpretAdvance(start: seq<Event>, t: seq<Event>, rest: seq<Action>, o: seq<CmdResult>, u: nat, whole: Run)
    requires Continues(start, t, Interpret(rest, o, u), whole)
    requires rest != [] && Steps.Perform(rest[0], o, u).halt.None?
    ensures var r := Steps.Perform(rest[0], o, u);
      Continues(start, t + r.events, Interpret(rest[1..], o, r.used), whole)
  {
    var r := Steps.Perform(rest[0], o, u);
    EventsAssoc(t, r.events, Interpret(rest[1..], o, r.used).events);
  }

  /** The driver ends at the end of the list or at the first entry that halts. */
  lemma InterpretExit(start: seq<Event>, t: seq<Event>, rest: seq<Action>, o: seq<CmdResult>, u: nat, whole: Run)
    requires Continues(start, t, Interpret(rest, o, u), whole)
    ensures rest == [] ==> start + whole.events == t && whole.used == u && whole.halt.None?
    ensures rest != [] && Steps.Perform(rest[0], o, u).halt.Some? ==>
      var r := Steps.Perform(rest[0], o, u);
      start + whole.events == t + r.events && whole.used == r.used && whole.halt == r.halt
  {
    assert t + [] == t;
  }

  class Bootstrap {
    /** `configs.Yurt`, `configs.Kube` and `configs.System` as far as the core reads or writes them. */
    var cfg: Config
    /** The steps issued and the warnings printed so far, in order. */
    var trace: seq<Event>
    /** How many oracle entries have been consumed. */
    var used: nat
    /** The answers of the executor, one per external call. */
    const oracle: seq<CmdResult>

    ghost predicate Valid()
      reads this
    {
      used <= |oracle|
    }

    constructor (c: Config, results: seq<CmdResult>)
      ensures Valid()
      ensures cfg == c && trace == [] && used == 0 && oracle == results
    {
      cfg := c;
      trace := [];
      used := 0;
      oracle := results;
    }

    /** One call of the executor: the step is issued and the next result answers it. */
    method Call(s: Step) returns (res: Option<CmdResult>)
      requires Valid()
      modifies this
      ensures Valid() && cfg == old(cfg)
      ensures old(used) < |oracle| ==> res == Some(oracle[old(used)]) && trace == old(trace) + [Issued(s)] && used == old(used) + 1
      ensures old(used) >= |oracle| ==> res == None && trace == old(trace) && used == old(used)
    {
      if used < |oracle| {
        res := Some(oracle[used]);
        trace := trace + [Issued(s)];
        used := used + 1;
      } else {
        res := None;
      }
    }

    /** `logs.WarnPrintf`. */
    method Warn(w: Warning)
      modifies this
      ensures trace == old(trace) + [Warned(w)] && used == old(used) && cfg == old(cfg)
    {
      trace := trace + [Warned(w)];
    }

    /** A call whose failure is fatal (`Checked`) or ignored (`BestEffort`). */
    method Exec(s: Step, p: Policy) returns (h: Option<Halt>)
      requires Valid()
      modifies this
      ensures Valid() && cfg == old(cfg)
      ensures var r := ExecRun(s, p, oracle, old(used));
        trace == old(trace) + r.events && used == r.used && h == r.halt
    {
      var res := Call(s);
      if res.None? {
        h := Some(OracleExhausted);
      } else if p == Checked && !res.value.ok {
        h := Some(StepFailed(s));
      } else {
        h := None;
      }
    }

    /** The readiness loop: probe until the output is `ready`, counting the waits from 1. */
    method PollUntil(probe: Step, ready: string, topic: WaitTopic) returns (h: Option<Halt>)
      requires Valid()
      modifies this
      ensures Valid() && cfg == old(cfg)
      ensures var r := Poll(probe, ready, topic, oracle, old(used), 1);
        trace == old(trace) + r.events && used == r.used && h == r.halt
    {
      var waitCount: nat := 1;
      assert old(trace) + [] == old(trace);
      while true
        invariant Valid() && cfg == old(cfg)
        invariant Continues(old(trace), trace, Poll(probe, ready, topic, oracle, used, waitCount),
                            Poll(probe, ready, topic, oracle, old(used), 1))
        decreases |oracle| - used
      {
        PollExit(old(trace), trace, probe, ready, topic, oracle, used, waitCount,
                 Poll(probe, ready, topic, oracle, old(used), 1));
        ghost var t0 := trace;
        var res := Call(probe);
        if res.None? {
          return Some(OracleExhausted);
        }
        if !res.value.ok {
          return Some(StepFailed(probe));
        }
        if res.value.output == ready {
          return None;
        }
        PollAdvance(old(trace), t0, probe, ready, topic, oracle, used - 1, waitCount,
                    Poll(probe, ready, topic, oracle, old(used), 1));
        Warn(StillWaiting(topic, waitCount));
        waitCount := waitCount + 1;
      }
    }

    /** Lists the pods of the node, then deletes them one line at a time. */
    method RestartPods(listing: Step) returns (h: Option<Halt>)
      requires Valid()
      modifies this
      ensures Valid() && cfg == old(cfg)
      ensures var r := Restart(listing, oracle, old(used));
        trace == old(trace) + r.events && used == r.used && h == r.halt
    {
      var res := Call(listing);
      if res.None? {
        return Some(OracleExhausted);
      }
      if !res.value.ok {
        return Some(StepFailed(listing));
      }
      ghost var u1 := used;
      ghost var t1 := trace;
      var podsToBeRestarted := Split(res.value.output, '\n');
      var rest := podsToBeRestarted;
      assert t1 + [] == t1;
      while rest != []
        invariant Valid() && cfg == old(cfg)
        invariant Continues(t1, trace, Deletes(rest, oracle, used), Deletes(podsToBeRestarted, oracle, u1))
        decreases |rest|
      {
        DeletesExit(t1, trace, rest, oracle, used, Deletes(podsToBeRestarted, oracle, u1));
        ghost var t0 := trace;
        var podsInfo := Split(rest[0], ' ');
        SplitInTwo(rest[0], ' ');
        if |podsInfo| < 2 {
          h := Some(PodLineWithoutSpace(rest[0]));
          break;
        }
        h := Exec(DeletePod(podsInfo[0], podsInfo[1]), Checked);
        if h.Some? {
          break;
        }
        DeletesAdvance(t1, t0, rest, oracle, used - 1, Deletes(podsToBeRestarted, oracle, u1));
        rest := rest[1..];
      }
      if rest == [] {
        DeletesExit(t1, trace, rest, oracle, used, Deletes(podsToBeRestarted, oracle, u1));
        h := None;
      }
      EventsAssoc(old(trace), [Issued(listing)], Deletes(podsToBeRestarted, oracle, u1).events);
    }

    /** One entry of a step list. */
    method Perform(a: Action) returns (h: Option<Halt>)
      requires Valid()
      modifies this
      ensures Valid() && cfg == old(cfg)
      ensures var r := Steps.Perform(a, oracle, old(used));
        trace == old(trace) + r.events && used == r.used && h == r.halt
    {
      match a
      case Exec(s, p) => h := Exec(s, p);
      case Notify(w) => Warn(w); h := None;
      case Abort(reason) => h := Some(reason);
      case PollUntil(probe, ready, topic) => h := PollUntil(probe, ready, topic);
      case RestartListed(listing) => h := RestartPods(listing);
    }

    /** The fail-fast driver: the entries of `plan` in order, up to the first halt. */
    method Execute(plan: seq<Action>) returns (h: Option<Halt>)
      requires Valid()
      modifies this
      ensures Valid() && cfg == old(cfg)
      ensures var r := Interpret(plan, oracle, old(used));
        trace == old(trace) + r.events && used == r.used && h == r.halt
    {
      var rest := plan;
      assert old(trace) + [] == old(trace);
      while rest != []
        invariant Valid() && cfg == old(cfg)
        invariant Continues(old(trace), trace, Interpret(rest, oracle, used), Interpret(plan, oracle, old(used)))
        decreases |rest|
      {
        ghost var u0, t0 := used, trace;
        InterpretExit(old(trace), t0, rest, oracle, u0, Interpret(plan, oracle, old(used)));
        h := Perform(rest[0]);
        if h.Some? {
          return;
        }
        InterpretAdvance(old(trace), t0, rest, oracle, u0, Interpret(plan, oracle, old(used)));
        rest := rest[1..];
      }
      InterpretExit(old(trace), trace, rest, oracle, used, Interpret(plan, oracle, old(used)));
      h := None;
    }

    /** `exec.LookPath`: a missing tool is a warning, not an error. */
    method LookPath(t: Tool) returns (h: Option<Halt>, found: bool)
      requires Valid()
      modifies this
      ensures Valid() && cfg == old(cfg)
      ensures var r := LookupRun(t, oracle, old(used));
        trace == old(trace) + r.events && used == r.used && h == r.halt
      ensures found <==> old(used) < |oracle| && oracle[old(used)].ok
    {
      var res := Call(Steps.LookPath(t));
      h := if res.None? then Some(OracleExhausted) else None;
      found := res.Some? && res.value.ok;
      if res.Some? && !found {
        Warn(ToolNotFound(t));
      }
    }

    /** `CheckYurtMasterEnvironment`. */
    method CheckEnvironment() returns (h: Option<Halt>)
      requires Valid()
      modifies this
      ensures Valid()
      ensures var e := CheckEnvironmentSpec(old(cfg), oracle, old(used));
        cfg == e.cfg && trace == old(trace) + e.run.events && used == e.run.used && h == e.run.halt
    {
      var found;
      h, found := LookPath(Helm);
      if h.Some? {
        return;
      }
      if found {
        cfg := cfg.(helmInstalled := true);
      }
      h, found := LookPath(Kustomize);
      if h.Some? {
        return;
      }
      if found {
        cfg := cfg.(kustomizeInstalled := true);
      }
      match cfg.currentOS {
        case "ubuntu" => cfg := cfg.(dependencies := UbuntuDependencies);
        case "rocky linux" => cfg := cfg.(dependencies := "");
        case "centos" => cfg := cfg.(dependencies := "");
        case _ => return Some(UnsupportedOS(cfg.currentOS));
      }
      h := None;
    }

    /** `YurtMasterInit`: the environment check, then the master-init step list. */
    method MasterInit() returns (h: Option<Halt>)
      requires Valid()
      modifies this
      ensures Valid()
      ensures var e := MasterInitSpec(old(cfg), oracle, old(used));
        cfg == e.cfg && trace == old(trace) + e.run.events && used == e.run.used && h == e.run.halt
    {
      h := CheckEnvironment();
      if h.Some? {
        return;
      }
      h := Execute(MasterInitPlan(cfg));
    }

    /** `YurtMasterExpand`. */
    method MasterExpand() returns (h: Option<Halt>)
      requires Valid()
      modifies this
      ensures Valid() && cfg == old(cfg)
      ensures var r := Interpret(MasterExpandPlan(old(cfg)), oracle, old(used));
        trace == old(trace) + r.events && used == r.used && h == r.halt
    {
      h := Execute(MasterExpandPlan(cfg));
    }

    /** `YurtWorkerJoin` as written: only the Yurthub step is checked. */
    method WorkerJoin() returns (h: Option<Halt>)
      requires Valid()
      modifies this
      ensures Valid() && cfg == old(cfg)
      ensures var r := Interpret(WorkerJoinPlanAsWritten(old(cfg)), oracle, old(used));
        trace == old(trace) + r.events && used == r.used && h == r.halt
    {
      h := Execute(WorkerJoinPlanAsWritten(cfg));
    }

    /** `YurtWorkerJoin` as evidently intended: a failure of any of its four commands is fatal. */
    method WorkerJoinCorrected() returns (h: Option<Halt>)
      requires Valid()
      modifies this
      ensures Valid() && cfg == old(cfg)
      ensures var r := Interpret(WorkerJoinPlan(old(cfg)), oracle, old(used));
        trace == old(trace) + r.events && used == r.used && h == r.halt
    {
      h := Execute(WorkerJoinPlan(cfg));
    }

    /** `ParseSubcommandYurt` once the flags are in `cfg`: the role and operation checks, then the procedure. */
    method ParseSubcommandYurt(nodeRole: string, operation: string) returns (h: Option<Halt>)
      requires Valid()
      modifies this
      ensures Valid()
      ensures var d := DispatchSpec(nodeRole, operation, old(cfg), oracle, old(used));
        cfg == d.cfg && trace == old(trace) + d.run.events && used == d.run.used && h == d.run.halt
    {
      match nodeRole
      case "master" =>
        if operation == "init" {
          h := MasterInit();
        } else if operation == "expand" {
          if |cfg.workerNodeName| == 0 {
            return Some(MissingParameter("worker-node-name"));
          }
          h := MasterExpand();
        } else {
          h := Some(InvalidOperation(operation));
        }
      case "worker" =>
        if operation != "join" {
          return Some(InvalidOperation(operation));
        }
        if |cfg.apiserverAdvertiseAddress| == 0 {
          return Some(MissingParameter("apiserver-advertise-address"));
        }
        if |cfg.apiserverToken| == 0 {
          return Some(MissingParameter("apiserver-token"));
        }
        h := WorkerJoin();
      case _ =>
        h := Some(InvalidNodeRole(nodeRole));
    }
  }
}
