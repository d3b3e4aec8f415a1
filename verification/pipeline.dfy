/**
 * The top-level order of an installer: stages run one after another, each
 * a plan of steps, with the fail-fast `run` carrying a failure out of the
 * whole script. The stage that failed is the one reported, and the state
 * reached is the one after the last stage that completed.
 */
module Pipeline {
  import opened Commands
  import opened Executor

  /** The stages of provisioning, in the order the installers carry them out. */
  datatype Stage = Partition | Format | Mount | InstallPackages | Configure

  /** How far provisioning got: the state after the last completed stage. */
  datatype ProvisioningState =
    | NotStarted | Partitioned | Formatted | Mounted | PackagesInstalled | Configured | Done

  function StateAfter(s: Stage): ProvisioningState {
    match s
    case Partition => Partitioned
    case Format => Formatted
    case Mount => Mounted
    case InstallPackages => PackagesInstalled
    case Configure => Configured
  }

  datatype Phase = Phase(stage: Stage, actions: seq<Action>)

  /** How a pipeline ended: every stage done, or command `step` of phase `phase` failed. */
  datatype Result = Finished | Failed(phase: nat, step: nat, cmd: string, code: int)

  datatype Report = Report(events: seq<Event>, result: Result)

  /** The single plan the phases make when laid end to end. */
  function Flatten(phases: seq<Phase>): seq<Action> {
    if |phases| == 0 then [] else phases[0].actions + Flatten(phases[1..])
  }

  /** The exit codes of every phase laid end to end. */
  function FlattenCodes(codes: seq<seq<int>>): seq<int> {
    if |codes| == 0 then [] else codes[0] + FlattenCodes(codes[1..])
  }

  /** `codes[p]` gives one exit code per step of phase `p`. */
  predicate CodesFit(phases: seq<Phase>, codes: seq<seq<int>>) {
    |codes| == |phases| && forall p :: 0 <= p < |phases| ==> |codes[p]| == |phases[p].actions|
  }

  lemma {:induction false} FlattenLength(phases: seq<Phase>, codes: seq<seq<int>>)
    requires CodesFit(phases, codes)
    ensures |FlattenCodes(codes)| == |Flatten(phases)|
  {
    if |phases| > 0 {
      FlattenLength(phases[1..], codes[1..]);
    }
  }

  /** Run the phases in order, as the installer's consecutive calls do; a failing command ends the pipeline. */
  function RunPhases(phases: seq<Phase>, codes: seq<seq<int>>, style: TraceStyle): (r: Report)
    requires CodesFit(phases, codes)
    ensures r.result.Failed? ==>
              r.result.phase < |phases| && r.result.step < |phases[r.result.phase].actions|
  {
    if |phases| == 0 then Report([], Finished)
    else
      var o := Execute(phases[0].actions, codes[0], style);
      match o.status
      case Halted(k, cmd, code) => Report(o.events, Failed(0, k, cmd, code))
      case Completed =>
        var rest := RunPhases(phases[1..], codes[1..], style);
        match rest.result
        case Finished => Report(o.events + rest.events, Finished)
        case Failed(p, k, cmd, code) => Report(o.events + rest.events, Failed(p + 1, k, cmd, code))
  }

  /**
   * What `RunPhases` computes: it finishes exactly when every command of
   * every phase succeeds; otherwise it reports the phase holding the first
   * failing command, every earlier phase having succeeded in full.
   */
  lemma {:induction false} RunPhasesSpec(phases: seq<Phase>, codes: seq<seq<int>>, style: TraceStyle)
    requires CodesFit(phases, codes)
    ensures var r := RunPhases(phases, codes, style);
            && (r.result.Finished? <==> forall p :: 0 <= p < |phases| ==> AllSucceed(phases[p].actions, codes[p]))
            && (r.result.Failed? ==>
                  && r.result.phase < |phases|
                  && (forall q :: 0 <= q < r.result.phase ==> AllSucceed(phases[q].actions, codes[q]))
                  && FirstFailure(phases[r.result.phase].actions, codes[r.result.phase], r.result.step)
                  && r.result.cmd == Render(phases[r.result.phase].actions[r.result.step].cmd)
                  && r.result.code == codes[r.result.phase][r.result.step])
  {
    if |phases| > 0 {
      ExecuteStatus(phases[0].actions, codes[0], style);
      var o := Execute(phases[0].actions, codes[0], style);
      if o.status.Completed? {
        assert CodesFit(phases[1..], codes[1..]);
        RunPhasesSpec(phases[1..], codes[1..], style);
      }
    }
  }

  /** The state the machine is left in: after the last phase that completed. */
  function Reached(phases: seq<Phase>, r: Result): ProvisioningState {
    match r
    case Finished => Done
    case Failed(p, _, _, _) =>
      if p == 0 || p > |phases| then NotStarted else StateAfter(phases[p - 1].stage)
  }

  /** Where the phase that starts at offset `Offset(phases, p)` sits in the flattened plan. */
  function Offset(phases: seq<Phase>, p: nat): nat
    requires p <= |phases|
  {
    if p == 0 then 0 else |phases[0].actions| + Offset(phases[1..], p - 1)
  }

  /**
   * A pipeline report `r` and a single run `o` over the flattened plan
   * agree: the same events, the same success, and a failure at step `k` of
   * phase `p` is the flattened plan's failure at `Offset(phases, p) + k`.
   */
  ghost predicate SameRun(phases: seq<Phase>, r: Report, o: Outcome) {
    && r.events == o.events
    && (r.result.Finished? <==> o.status.Completed?)
    && (r.result.Failed? ==>
          r.result.phase <= |phases| && o.status == Halted(Offset(phases, r.result.phase) + r.result.step, r.result.cmd, r.result.code))
  }

  /**
   * Splitting the plan into phases changes nothing: the pipeline behaves as
   * one fail-fast run over the flattened plan, and a failure at step `k` of
   * phase `p` is the flattened plan's failure at `Offset(phases, p) + k`.
   */
  lemma {:induction false} PhasesAreOnePlan(phases: seq<Phase>, codes: seq<seq<int>>, style: TraceStyle)
    requires CodesFit(phases, codes)
    ensures |FlattenCodes(codes)| == |Flatten(phases)|
    ensures var r := RunPhases(phases, codes, style);
            var o := Execute(Flatten(phases), FlattenCodes(codes), style);
            && r.events == o.events
            && (r.result.Finished? <==> o.status.Completed?)
            && (r.result.Failed? ==> o.status == Halted(Offset(phases, r.result.phase) + r.result.step, r.result.cmd, r.result.code))
  {
    FlattenLength(phases, codes);
    if |phases| > 0 {
      FlattenLength(phases[1..], codes[1..]);
      assert CodesFit(phases[1..], codes[1..]);
      if Execute(phases[0].actions, codes[0], style).status.Halted? {
        OnePlanWhenFirstHalts(phases, codes, style);
      } else {
        PhasesAreOnePlan(phases[1..], codes[1..], style);
        OnePlanAfterFirst(phases, codes, style);
      }
    }
  }

  /** A failure in the first phase is the flattened plan's failure at the same step. */
  lemma OnePlanWhenFirstHalts(phases: seq<Phase>, codes: seq<seq<int>>, style: TraceStyle)
    requires CodesFit(phases, codes) && |phases| > 0 && CodesFit(phases[1..], codes[1..])
    requires |FlattenCodes(codes[1..])| == |Flatten(phases[1..])|
    requires Execute(phases[0].actions, codes[0], style).status.Halted?
    ensures |FlattenCodes(codes)| == |Flatten(phases)|
    ensures SameRun(phases, RunPhases(phases, codes, style), Execute(Flatten(phases), FlattenCodes(codes), style))
  {
    ExecuteAppendHalted(phases[0].actions, codes[0], Flatten(phases[1..]), FlattenCodes(codes[1..]), style);
  }

  /** When the first phase completes, agreement on the later phases carries over to the whole pipeline. */
  lemma OnePlanAfterFirst(phases: seq<Phase>, codes: seq<seq<int>>, style: TraceStyle)
    requires CodesFit(phases, codes) && |phases| > 0 && CodesFit(phases[1..], codes[1..])
    requires |FlattenCodes(codes[1..])| == |Flatten(phases[1..])|
    requires Execute(phases[0].actions, codes[0], style).status.Completed?
    requires SameRun(phases[1..], RunPhases(phases[1..], codes[1..], style), Execute(Flatten(phases[1..]), FlattenCodes(codes[1..]), style))
    ensures |FlattenCodes(codes)| == |Flatten(phases)|
    ensures SameRun(phases, RunPhases(phases, codes, style), Execute(Flatten(phases), FlattenCodes(codes), style))
  {
    var x := phases[0].actions;
    ExecuteAppendCompleted(x, codes[0], Flatten(phases[1..]), FlattenCodes(codes[1..]), style);
    SameRunStep(phases, RunPhases(phases, codes, style), RunPhases(phases[1..], codes[1..], style),
                Execute(x, codes[0], style).events, Execute(Flatten(phases[1..]), FlattenCodes(codes[1..]), style));
  }

  /** Agreement on the later phases gives agreement on the whole, one phase and `|phases[0].actions|` steps further on. */
  lemma SameRunStep(phases: seq<Phase>, r: Report, rest: Report, head: seq<Event>, later: Outcome)
    requires |phases| > 0
    requires SameRun(phases[1..], rest, later)
    requires r.events == head + rest.events
    requires r.result.Finished? <==> rest.result.Finished?
    requires rest.result.Failed? ==> r.result == Failed(rest.result.phase + 1, rest.result.step, rest.result.cmd, rest.result.code)
    ensures SameRun(phases, r, Outcome(head + later.events, Shift(later.status, |phases[0].actions|)))
  {
    if rest.result.Failed? {
      assert Offset(phases, rest.result.phase + 1) == |phases[0].actions| + Offset(phases[1..], rest.result.phase);
    }
  }

  /**
   * A failure stops in a phase that did not succeed in full, after every
   * earlier phase completed; nothing of the failing phase after the failing
   * command, nor of any later phase, has been issued.
   */
  lemma HaltsAtFailingStage(phases: seq<Phase>, codes: seq<seq<int>>, style: TraceStyle)
    requires CodesFit(phases, codes)
    ensures var r := RunPhases(phases, codes, style);
            r.result.Failed? ==>
              && (forall q :: 0 <= q < r.result.phase ==> AllSucceed(phases[q].actions, codes[q]))
              && !AllSucceed(phases[r.result.phase].actions, codes[r.result.phase])
              && Issued(r.events) == Flatten(phases[..r.result.phase]) + phases[r.result.phase].actions[..r.result.step + 1]
  {
    var r := RunPhases(phases, codes, style);
    RunPhasesSpec(phases, codes, style);
    if r.result.Failed? {
      IssuedPrefix(phases, codes, style);
    }
  }

  /** What the prefix of the plan issued up to a pipeline result is. */
  ghost predicate IssuedUpTo(phases: seq<Phase>, r: Report)
    requires r.result.Failed? ==> r.result.phase < |phases| && r.result.step < |phases[r.result.phase].actions|
  {
    && (r.result.Failed? ==> Issued(r.events) == Flatten(phases[..r.result.phase]) + phases[r.result.phase].actions[..r.result.step + 1])
    && (r.result.Finished? ==> Issued(r.events) == Flatten(phases))
  }

  lemma {:induction false} IssuedPrefix(phases: seq<Phase>, codes: seq<seq<int>>, style: TraceStyle)
    requires CodesFit(phases, codes)
    ensures IssuedUpTo(phases, RunPhases(phases, codes, style))
  {
    if |phases| > 0 {
      var o := Execute(phases[0].actions, codes[0], style);
      if o.status.Halted? {
        IssuedWhenFirstHalts(phases, codes, style);
      } else {
        assert CodesFit(phases[1..], codes[1..]);
        IssuedPrefix(phases[1..], codes[1..], style);
        RunPhasesAfterFirst(phases, codes, style);
        IssuedAfterFirstCompletes(phases, RunPhases(phases, codes, style), RunPhases(phases[1..], codes[1..], style));
      }
    }
  }

  /** A failure in the first phase has issued that phase up to the failing command. */
  lemma IssuedWhenFirstHalts(phases: seq<Phase>, codes: seq<seq<int>>, style: TraceStyle)
    requires CodesFit(phases, codes) && |phases| > 0
    requires Execute(phases[0].actions, codes[0], style).status.Halted?
    ensures IssuedUpTo(phases, RunPhases(phases, codes, style))
  {
    var r := RunPhases(phases, codes, style);
    NothingAfterFailure(phases[0].actions, codes[0], style);
    assert phases[..0] == [];
  }

  /** Once the first phase completes, the pipeline issues it and then whatever the rest issues, one phase further on. */
  lemma RunPhasesAfterFirst(phases: seq<Phase>, codes: seq<seq<int>>, style: TraceStyle)
    requires CodesFit(phases, codes) && |phases| > 0 && CodesFit(phases[1..], codes[1..])
    requires Execute(phases[0].actions, codes[0], style).status.Completed?
    ensures var r, rest := RunPhases(phases, codes, style), RunPhases(phases[1..], codes[1..], style);
            && Issued(r.events) == phases[0].actions + Issued(rest.events)
            && (r.result.Finished? <==> rest.result.Finished?)
            && (rest.result.Failed? ==> r.result.phase == rest.result.phase + 1 && r.result.step == rest.result.step)
  {
    var o := Execute(phases[0].actions, codes[0], style);
    NothingAfterFailure(phases[0].actions, codes[0], style);
    IssuedAppend(o.events, RunPhases(phases[1..], codes[1..], style).events);
  }

  /** The issued prefix carries over from the later phases to the whole pipeline when the first phase completed. */
  lemma IssuedAfterFirstCompletes(phases: seq<Phase>, r: Report, rest: Report)
    requires |phases| > 0
    requires rest.result.Failed? ==> rest.result.phase < |phases| - 1 && rest.result.step < |phases[1..][rest.result.phase].actions|
    requires IssuedUpTo(phases[1..], rest)
    requires Issued(r.events) == phases[0].actions + Issued(rest.events)
    requires r.result.Finished? <==> rest.result.Finished?
    requires rest.result.Failed? ==> r.result.phase == rest.result.phase + 1 && r.result.step == rest.result.step
    ensures r.result.Failed? ==> r.result.phase < |phases| && r.result.step < |phases[r.result.phase].actions|
    ensures IssuedUpTo(phases, r)
  {
    if rest.result.Failed? {
      var p, k := rest.result.phase, rest.result.step;
      assert phases[p + 1] == phases[1..][p];
      FlattenTake(phases, p);
      AppendAssoc(phases[0].actions, Flatten(phases[1..][..p]), phases[1..][p].actions[..k + 1]);
    }
  }

  /** The first `p + 1` phases flatten to the first phase followed by the next `p`. */
  lemma FlattenTake(phases: seq<Phase>, p: nat)
    requires p < |phases|
    ensures Flatten(phases[..p + 1]) == phases[0].actions + Flatten(phases[1..][..p])
  {
    assert phases[..p + 1][0] == phases[0];
    assert phases[..p + 1][1..] == phases[1..][..p];
  }
}
