/**
 * The `run` helper of the installers and the fail-fast execution of a plan.
 *
 * `run` prints a trace line (in the scripts that have one) and then calls
 * `subprocess.run(cmd, shell=True, check=True)`: a non-zero exit raises
 * `CalledProcessError`, nothing catches it, and the script ends there.
 * Exit codes of the external tools are inputs: `codes[i]` is the status the
 * command at position `i` of the plan would exit with. The Python-level
 * steps (`os.makedirs`, file writes, `os.remove`) always succeed here.
 */
module Executor {
  import opened Commands

  /** Whether `run` prints `prefix + cmd` before executing, and with which prefix. */
  datatype TraceStyle = Traced(prefix: string) | Silent

  /** What an operator would observe: a trace line, or a step being carried out. */
  datatype Event = Trace(line: string) | Issue(action: Action)

  /** How a plan ended: every step done, or stopped by the command at `at`. */
  datatype Status = Completed | Halted(at: nat, cmd: string, code: int)

  datatype Outcome = Outcome(events: seq<Event>, status: Status)

  /** The events of carrying out one step successfully or not: trace line first, then the step. */
  function StepLog(a: Action, style: TraceStyle): seq<Event> {
    if a.Run? && style.Traced? then [Trace(style.prefix + Render(a.cmd)), Issue(a)] else [Issue(a)]
  }

  /** The events of carrying out every step of `plan` in order. */
  function Log(plan: seq<Action>, style: TraceStyle): seq<Event> {
    if |plan| == 0 then [] else StepLog(plan[0], style) + Log(plan[1..], style)
  }

  /** The steps actually carried out, read back from an event log. */
  function Issued(events: seq<Event>): seq<Action> {
    if |events| == 0 then []
    else (if events[0].Issue? then [events[0].action] else []) + Issued(events[1..])
  }

  /** Every command of `plan` exits with status 0. */
  predicate AllSucceed(plan: seq<Action>, codes: seq<int>)
    requires |codes| == |plan|
  {
    forall i :: 0 <= i < |plan| && plan[i].Run? ==> codes[i] == 0
  }

  /** Position `k` holds the first command of `plan` that exits non-zero. */
  predicate FirstFailure(plan: seq<Action>, codes: seq<int>, k: nat)
    requires |codes| == |plan|
  {
    k < |plan| && plan[k].Run? && codes[k] != 0 && AllSucceed(plan[..k], codes[..k])
  }

  /** A status as seen from a plan that has `n` more steps in front. */
  function Shift(s: Status, n: nat): Status {
    match s
    case Completed => Completed
    case Halted(k, cmd, code) => Halted(k + n, cmd, code)
  }

  /** How many steps of a plan of length `n` were issued by a run that ended with `s`. */
  function Reach(s: Status, n: nat): nat {
    match s
    case Completed => n
    case Halted(k, _, _) => if k < n then k + 1 else n
  }

  /**
   * Carry out `plan` the way consecutive `run` calls do: stop at the first
   * command with a non-zero exit, after it has been traced and issued.
   */
  function Execute(plan: seq<Action>, codes: seq<int>, style: TraceStyle): (o: Outcome)
    requires |codes| == |plan|
    ensures o.status.Halted? ==> o.status.at < |plan| && plan[o.status.at].Run?
  {
    if |plan| == 0 then Outcome([], Completed)
    else
      var head := StepLog(plan[0], style);
      if plan[0].Run? && codes[0] != 0 then
        Outcome(head, Halted(0, Render(plan[0].cmd), codes[0]))
      else
        var rest := Execute(plan[1..], codes[1..], style);
        Outcome(head + rest.events, Shift(rest.status, 1))
  }

  /**
   * How `Execute` ends: it completes exactly when every command succeeds;
   * otherwise it halts at the first failing command and reports that
   * command's text and exit code.
   */
  lemma {:induction false} ExecuteStatus(plan: seq<Action>, codes: seq<int>, style: TraceStyle)
    requires |codes| == |plan|
    ensures var o := Execute(plan, codes, style);
            && (o.status.Completed? <==> AllSucceed(plan, codes))
            && (o.status.Halted? ==>
                  && FirstFailure(plan, codes, o.status.at)
                  && o.status.cmd == Render(plan[o.status.at].cmd)
                  && o.status.code == codes[o.status.at])
  {
    if |plan| > 0 && !(plan[0].Run? && codes[0] != 0) {
      ExecuteStatus(plan[1..], codes[1..], style);
      var rest := Execute(plan[1..], codes[1..], style);
      if rest.status.Halted? {
        var k := rest.status.at;
        assert plan[..k + 1] == [plan[0]] + plan[1..][..k];
        assert codes[..k + 1] == [codes[0]] + codes[1..][..k];
      }
    }
  }

  /** What an `Execute` run shows: the events of exactly the steps up to the point it reached. */
  lemma {:induction false} ExecuteEvents(plan: seq<Action>, codes: seq<int>, style: TraceStyle)
    requires |codes| == |plan|
    ensures var o := Execute(plan, codes, style);
            o.events == Log(plan[..Reach(o.status, |plan|)], style)
  {
    if |plan| == 0 {
    } else if plan[0].Run? && codes[0] != 0 {
      assert plan[..1] == [plan[0]];
      assert Log(plan[..1], style) == StepLog(plan[0], style) + Log([], style);
    } else {
      var rest := Execute(plan[1..], codes[1..], style);
      ExecuteEvents(plan[1..], codes[1..], style);
      var n := Reach(rest.status, |plan| - 1);
      assert Reach(Shift(rest.status, 1), |plan|) == n + 1;
      assert plan[..n + 1] == [plan[0]] + plan[1..][..n];
      assert plan[..n + 1][1..] == plan[1..][..n];
    }
  }

  /** Both halves of what `Execute` computes. */
  lemma ExecuteSpec(plan: seq<Action>, codes: seq<int>, style: TraceStyle)
    requires |codes| == |plan|
    ensures var o := Execute(plan, codes, style);
            && (o.status.Completed? <==> AllSucceed(plan, codes))
            && (o.status.Halted? ==> FirstFailure(plan, codes, o.status.at))
            && o.events == Log(plan[..Reach(o.status, |plan|)], style)
  {
    ExecuteStatus(plan, codes, style);
    ExecuteEvents(plan, codes, style);
  }

  /** Logs of consecutive plans concatenate. */
  lemma {:induction false} LogAppend(x: seq<Action>, y: seq<Action>, style: TraceStyle)
    ensures Log(x + y, style) == Log(x, style) + Log(y, style)
  {
    if |x| > 0 {
      assert (x + y)[1..] == x[1..] + y;
      LogAppend(x[1..], y, style);
    } else {
      assert x + y == y;
    }
  }

  /** Reading back the issued steps distributes over concatenated logs. */
  lemma {:induction false} IssuedAppend(a: seq<Event>, b: seq<Event>)
    ensures Issued(a + b) == Issued(a) + Issued(b)
  {
    if |a| > 0 {
      assert (a + b)[1..] == a[1..] + b;
      IssuedAppend(a[1..], b);
    } else {
      assert a + b == b;
    }
  }

  /** The log of a plan issues exactly the steps of the plan, in order. */
  lemma {:induction false} IssuedLog(plan: seq<Action>, style: TraceStyle)
    ensures Issued(Log(plan, style)) == plan
  {
    if |plan| > 0 {
      var head := StepLog(plan[0], style);
      IssuedAppend(head, Log(plan[1..], style));
      IssuedLog(plan[1..], style);
      assert Issued(head) == [plan[0]];
    }
  }

  /**
   * Nothing after a failing command is issued: a halted run has issued
   * exactly the steps up to and including the failing command; a completed
   * run has issued the whole plan.
   */
  lemma NothingAfterFailure(plan: seq<Action>, codes: seq<int>, style: TraceStyle)
    requires |codes| == |plan|
    ensures var o := Execute(plan, codes, style);
            && (o.status.Halted? ==> o.status.at < |plan| && Issued(o.events) == plan[..o.status.at + 1])
            && (o.status.Completed? ==> Issued(o.events) == plan)
  {
    var o := Execute(plan, codes, style);
    ExecuteSpec(plan, codes, style);
    if o.status.Halted? {
      IssuedLog(plan[..o.status.at + 1], style);
    } else {
      IssuedLog(plan, style);
    }
  }

  /** A run stops right after the first failing command, whichever it is. */
  lemma HaltsAtFirstFailure(plan: seq<Action>, codes: seq<int>, style: TraceStyle, k: nat)
    requires |codes| == |plan| && FirstFailure(plan, codes, k)
    ensures Issued(Execute(plan, codes, style).events) == plan[..k + 1]
  {
    ExecuteStatus(plan, codes, style);
    NothingAfterFailure(plan, codes, style);
    var o := Execute(plan, codes, style);
    assert !AllSucceed(plan, codes) by {
      assert plan[k].Run? && codes[k] != 0;
    }
    FirstFailureUnique(plan, codes, k, o.status.at);
  }

  /** The first failing command is unique, so the reported failure is well defined. */
  lemma FirstFailureUnique(plan: seq<Action>, codes: seq<int>, k1: nat, k2: nat)
    requires |codes| == |plan|
    requires FirstFailure(plan, codes, k1) && FirstFailure(plan, codes, k2)
    ensures k1 == k2
  {
  }

  /** Every command issued in `log` is immediately preceded by its trace line. */
  ghost predicate EachCommandAnnounced(log: seq<Event>, prefix: string) {
    forall e :: 0 <= e < |log| && log[e].Issue? && log[e].action.Run? ==>
      e > 0 && log[e - 1] == Trace(prefix + Render(log[e].action.cmd))
  }

  /**
   * With tracing on, every issued command is announced by its trace line
   * immediately before it, so a hang or failure can be attributed to the
   * last trace line printed.
   */
  lemma {:induction false} TraceAnnouncesEachCommand(plan: seq<Action>, prefix: string)
    ensures EachCommandAnnounced(Log(plan, Traced(prefix)), prefix)
  {
    if |plan| > 0 {
      var head := StepLog(plan[0], Traced(prefix));
      var tail := Log(plan[1..], Traced(prefix));
      TraceAnnouncesEachCommand(plan[1..], prefix);
      var log := head + tail;
      forall e | 0 <= e < |log| && log[e].Issue? && log[e].action.Run?
        ensures e > 0 && log[e - 1] == Trace(prefix + Render(log[e].action.cmd))
      {
        if e < |head| {
          assert log[e] == head[e];
          assert e == 1 && log[0] == head[0];
        } else {
          var e' := e - |head|;
          assert log[e] == tail[e'];
          assert log[e - 1] == tail[e' - 1];
        }
      }
    }
  }

  /** A failure in the first of two back-to-back plans ends the run there: the second plan is never started. */
  lemma {:induction false} ExecuteAppendHalted(x: seq<Action>, cx: seq<int>, y: seq<Action>, cy: seq<int>, style: TraceStyle)
    requires |cx| == |x| && |cy| == |y|
    requires Execute(x, cx, style).status.Halted?
    ensures Execute(x + y, cx + cy, style) == Execute(x, cx, style)
  {
    var xy, cxy := x + y, cx + cy;
    assert xy[0] == x[0] && cxy[0] == cx[0];
    if x[0].Run? && cx[0] != 0 {
    } else {
      assert xy[1..] == x[1..] + y;
      assert cxy[1..] == cx[1..] + cy;
      ExecuteAppendHalted(x[1..], cx[1..], y, cy, style);
    }
  }

  /** When the first of two back-to-back plans completes, the run continues with the second. */
  lemma {:induction false} ExecuteAppendCompleted(x: seq<Action>, cx: seq<int>, y: seq<Action>, cy: seq<int>, style: TraceStyle)
    requires |cx| == |x| && |cy| == |y|
    requires Execute(x, cx, style).status.Completed?
    ensures var oy := Execute(y, cy, style);
            Execute(x + y, cx + cy, style) == Outcome(Execute(x, cx, style).events + oy.events, Shift(oy.status, |x|))
  {
    var xy, cxy := x + y, cx + cy;
    if |x| == 0 {
      assert xy == y && cxy == cy;
    } else {
      assert xy[0] == x[0] && cxy[0] == cx[0];
      assert xy[1..] == x[1..] + y;
      assert cxy[1..] == cx[1..] + cy;
      ExecuteAppendCompleted(x[1..], cx[1..], y, cy, style);
      AppendAssoc(StepLog(x[0], style), Execute(x[1..], cx[1..], style).events, Execute(y, cy, style).events);
    }
  }

  /** Sequence concatenation is associative. */
  lemma AppendAssoc<T>(a: seq<T>, b: seq<T>, c: seq<T>)
    ensures a + (b + c) == (a + b) + c
  {
  }
}
