/** The keepalive socket factory (`create_tcp_client_socket`), described as a plan of option
    steps that a generic runner executes: after the socket is created, each option is set in
    turn; a failing fatal step ends the factory with its result, a failing non-fatal step is
    only logged and its result is overwritten by the next step. */
module SocketFactory {
  import opened KeepaliveConfig

  /** What a callback option record holds when it is passed to the socket library: a
      record whose fields were never assigned, or one bound to a handler. */
  datatype CallbackRecord = Unassigned | DisconnectionHandler | ReceiveHandler

  /** The socket options the factory sets, with the values it passes. */
  datatype SocketOption =
    | ReceiveCallback(record: CallbackRecord)
    | DisconnectCallback(record: CallbackRecord)
    | KeepaliveInterval(ms: nat)
    | KeepaliveCount(probes: nat)
    | KeepaliveIdleTime(ms: nat)
    | KeepaliveEnable(flag: int)

  /** One option step and whether its failure ends the factory. */
  datatype Step = Step(option: SocketOption, fatal: bool)

  /** What the socket library reports for each call the factory can make. */
  datatype FactoryResults = FactoryResults(
    create: Rslt,
    receiveCallback: Rslt,
    disconnectCallback: Rslt,
    keepaliveInterval: Rslt,
    keepaliveCount: Rslt,
    keepaliveIdleTime: Rslt,
    keepaliveEnable: Rslt)
  {
    /** The reported result of setting `option`. */
    function ResultOf(option: SocketOption): Rslt
    {
      match option
      case ReceiveCallback(_) => receiveCallback
      case DisconnectCallback(_) => disconnectCallback
      case KeepaliveInterval(_) => keepaliveInterval
      case KeepaliveCount(_) => keepaliveCount
      case KeepaliveIdleTime(_) => keepaliveIdleTime
      case KeepaliveEnable(_) => keepaliveEnable
    }
  }

  /** The receive-callback option as the factory sets it: `tcp_recv_option` is declared but its
      callback and argument are never assigned before it is passed. */
  const ReceiveOption: SocketOption := ReceiveCallback(Unassigned)

  /** The disconnect-callback option, bound to the disconnection handler. */
  const DisconnectOption: SocketOption := DisconnectCallback(DisconnectionHandler)

  /** A callback option is bound to a handler; other options hold their value. */
  predicate CallbackBound(option: SocketOption)
  {
    match option
    case ReceiveCallback(r) => r != Unassigned
    case DisconnectCallback(r) => r != Unassigned
    case _ => true
  }

  /** What the factory returns and which options it tried to set, in order. */
  datatype FactoryRun = FactoryRun(result: Rslt, tried: seq<SocketOption>)

  /** The option steps after socket creation: the two callbacks, then the rest. */
  function Plan(lwip: bool): seq<Step>
  {
    [Step(ReceiveOption, true), Step(DisconnectOption, false)] + AfterCallbacks(lwip)
  }

  /** The steps after the callbacks: the three keepalive tuning steps, which exist only on the
      lwIP stack, then keepalive enable. */
  function AfterCallbacks(lwip: bool): seq<Step>
  {
    (if lwip then
       [Step(KeepaliveInterval(TcpKeepAliveIntervalMs), true),
        Step(KeepaliveCount(TcpKeepAliveRetryCount), true),
        Step(KeepaliveIdleTime(TcpKeepAliveIdleTimeMs), true)]
     else [])
    + [Step(KeepaliveEnable(KeepAliveOn), true)]
  }

  /** Runs `steps` in order; `last` is the most recent result, which is returned when the
      steps run out. */
  function RunSteps(steps: seq<Step>, o: FactoryResults, last: Rslt): (run: FactoryRun)
    ensures |run.tried| <= |steps|
    ensures forall k :: 0 <= k < |run.tried| ==> run.tried[k] == steps[k].option
  {
    if steps == [] then FactoryRun(last, [])
    else
      var r := o.ResultOf(steps[0].option);
      if r != Success && steps[0].fatal then FactoryRun(r, [steps[0].option])
      else
        var rest := RunSteps(steps[1..], o, r);
        FactoryRun(rest.result, [steps[0].option] + rest.tried)
  }

  /** The whole factory: a failed create returns at once with nothing tried. */
  function Factory(lwip: bool, o: FactoryResults): FactoryRun
  {
    if o.create != Success then FactoryRun(o.create, [])
    else RunSteps(Plan(lwip), o, o.create)
  }

  /** The keepalive tuning options, set only on the lwIP stack. */
  function Tuning(lwip: bool): seq<SocketOption>
  {
    if lwip then [KeepaliveInterval(TcpKeepAliveIntervalMs), KeepaliveCount(TcpKeepAliveRetryCount),
                  KeepaliveIdleTime(TcpKeepAliveIdleTimeMs)]
    else []
  }

  /** A step that succeeds or is not fatal passes on to the remaining steps. */
  lemma RunStepsPasses(steps: seq<Step>, o: FactoryResults, last: Rslt)
    requires steps != [] && (o.ResultOf(steps[0].option) == Success || !steps[0].fatal)
    ensures var rest := RunSteps(steps[1..], o, o.ResultOf(steps[0].option));
            RunSteps(steps, o, last) == FactoryRun(rest.result, [steps[0].option] + rest.tried)
  {
  }

  /** A last step decides the result. */
  lemma RunStepsLast(step: Step, o: FactoryResults, last: Rslt)
    ensures RunSteps([step], o, last) == FactoryRun(o.ResultOf(step.option), [step.option])
  {
    if o.ResultOf(step.option) == Success || !step.fatal {
      RunStepsPasses([step], o, last);
      assert [step][1..] == [];
    }
  }

  /** The exits of the steps after the callbacks: each keepalive tuning step and keepalive
      enable returns its own error, and enable's result is returned when all else succeeds. */
  lemma AfterCallbacksExits(lwip: bool, o: FactoryResults, last: Rslt)
    ensures var tail := RunSteps(AfterCallbacks(lwip), o, last);
            var t := Tuning(lwip);
            (lwip && o.keepaliveInterval != Success ==> tail == FactoryRun(o.keepaliveInterval, t[..1]))
            && (lwip && o.keepaliveInterval == Success && o.keepaliveCount != Success
                ==> tail == FactoryRun(o.keepaliveCount, t[..2]))
            && (lwip && o.keepaliveInterval == Success && o.keepaliveCount == Success && o.keepaliveIdleTime != Success
                ==> tail == FactoryRun(o.keepaliveIdleTime, t))
            && ((lwip ==> o.keepaliveInterval == Success && o.keepaliveCount == Success && o.keepaliveIdleTime == Success)
                ==> tail == FactoryRun(o.keepaliveEnable, t + [KeepaliveEnable(KeepAliveOn)]))
  {
    var after := AfterCallbacks(lwip);
    var enable := Step(KeepaliveEnable(KeepAliveOn), true);
    var tail := RunSteps(after, o, last);
    var t := Tuning(lwip);
    if !lwip {
      assert after == [enable];
      RunStepsLast(enable, o, last);
    } else {
      var a1, a2 := after[1..], after[1..][1..];
      assert after[0].option == t[0] && a1[0].option == t[1] && a2 == [Step(t[2], true), enable];
      if o.keepaliveInterval == Success {
        RunStepsPasses(after, o, last);
        if o.keepaliveCount == Success {
          RunStepsPasses(a1, o, o.keepaliveInterval);
          if o.keepaliveIdleTime == Success {
            RunStepsPasses(a2, o, o.keepaliveCount);
            assert a2[1..] == [enable];
            RunStepsLast(enable, o, o.keepaliveIdleTime);
            assert tail.tried == [t[0]] + ([t[1]] + ([t[2]] + [enable.option]));
          } else {
            assert tail.tried == [t[0]] + ([t[1]] + [t[2]]);
          }
        } else {
          assert tail.tried == [t[0]] + [t[1]];
        }
      }
    }
  }

  /** Every exit of the factory: a failed create returns its error with nothing set; a failed
      receive callback, keepalive tuning step or keepalive enable returns that step's error;
      a failed disconnect callback does neither and is overwritten by the next step. */
  lemma FactoryExits(lwip: bool, o: FactoryResults)
    ensures o.create != Success ==> Factory(lwip, o) == FactoryRun(o.create, [])
    ensures o.create == Success && o.receiveCallback != Success
            ==> Factory(lwip, o) == FactoryRun(o.receiveCallback, [ReceiveOption])
    ensures o.create == Success && o.receiveCallback == Success && lwip
            ==> var head := [ReceiveOption, DisconnectOption];
                (o.keepaliveInterval != Success
                 ==> Factory(lwip, o) == FactoryRun(o.keepaliveInterval, head + Tuning(lwip)[..1]))
                && (o.keepaliveInterval == Success && o.keepaliveCount != Success
                    ==> Factory(lwip, o) == FactoryRun(o.keepaliveCount, head + Tuning(lwip)[..2]))
                && (o.keepaliveInterval == Success && o.keepaliveCount == Success && o.keepaliveIdleTime != Success
                    ==> Factory(lwip, o) == FactoryRun(o.keepaliveIdleTime, head + Tuning(lwip)))
    ensures o.create == Success && o.receiveCallback == Success
            && (lwip ==> o.keepaliveInterval == Success && o.keepaliveCount == Success && o.keepaliveIdleTime == Success)
            ==> Factory(lwip, o)
                == FactoryRun(o.keepaliveEnable, [ReceiveOption, DisconnectOption] + Tuning(lwip) + [KeepaliveEnable(KeepAliveOn)])
  {
    if o.create == Success && o.receiveCallback == Success {
      var plan := Plan(lwip);
      assert plan[1..][1..] == AfterCallbacks(lwip);
      RunStepsPasses(plan, o, o.create);
      RunStepsPasses(plan[1..], o, o.receiveCallback);
      var tail := RunSteps(AfterCallbacks(lwip), o, o.disconnectCallback);
      assert Factory(lwip, o).tried == [ReceiveOption] + ([DisconnectOption] + tail.tried);
      AfterCallbacksExits(lwip, o, o.disconnectCallback);
    }
  }

  /** When the last step is fatal, the run succeeds exactly when every fatal step succeeds,
      and then every step was tried. */
  lemma {:induction false} RunStepsSucceeds(steps: seq<Step>, o: FactoryResults, last: Rslt)
    requires steps != [] && steps[|steps| - 1].fatal
    ensures RunSteps(steps, o, last).result == Success
        <==> forall k :: 0 <= k < |steps| && steps[k].fatal ==> o.ResultOf(steps[k].option) == Success
    ensures RunSteps(steps, o, last).result == Success ==> |RunSteps(steps, o, last).tried| == |steps|
  {
    var r := o.ResultOf(steps[0].option);
    if |steps| > 1 && !(r != Success && steps[0].fatal) {
      RunStepsSucceeds(steps[1..], o, r);
      assert forall k :: 1 <= k < |steps| ==> steps[k] == steps[1..][k - 1];
    }
  }

  /** A failed run stopped at a fatal step that failed, and reports that step's result. */
  lemma {:induction false} RunStepsFailure(steps: seq<Step>, o: FactoryResults, last: Rslt)
    requires steps != [] && steps[|steps| - 1].fatal
    requires RunSteps(steps, o, last).result != Success
    ensures var run := RunSteps(steps, o, last);
            run.tried != []
            && exists k :: 0 <= k < |steps| && k == |run.tried| - 1 && steps[k].fatal
                           && run.result == o.ResultOf(steps[k].option)
  {
    var r := o.ResultOf(steps[0].option);
    if !(r != Success && steps[0].fatal) {
      RunStepsFailure(steps[1..], o, r);
      var k :| 0 <= k < |steps[1..]| && k == |RunSteps(steps[1..], o, r).tried| - 1
               && steps[1..][k].fatal && RunSteps(steps[1..], o, r).result == o.ResultOf(steps[1..][k].option);
      assert steps[k + 1] == steps[1..][k];
    }
  }

  /** The result of a step that is not fatal and is followed by another step never shows:
      changing what the library reports for it changes nothing. Nor does `last` matter once a
      step remains. */
  lemma {:induction false} NonFatalResultOverwritten(steps: seq<Step>, o: FactoryResults, e: Rslt, last1: Rslt, last2: Rslt)
    requires steps != []
    requires forall k :: 0 <= k < |steps| && steps[k].option.DisconnectCallback?
                         ==> !steps[k].fatal && k + 1 < |steps|
    ensures RunSteps(steps, o, last1) == RunSteps(steps, o.(disconnectCallback := e), last2)
  {
    var o' := o.(disconnectCallback := e);
    var r, r' := o.ResultOf(steps[0].option), o'.ResultOf(steps[0].option);
    if |steps| > 1 {
      forall k | 0 <= k < |steps[1..]| && steps[1..][k].option.DisconnectCallback?
        ensures !steps[1..][k].fatal && k + 1 < |steps[1..]|
      {
        assert steps[1..][k] == steps[k + 1];
      }
      NonFatalResultOverwritten(steps[1..], o, e, r, r');
    }
  }

  /** The factory succeeds exactly when the socket is created and every step but the
      disconnect callback succeeds; on success every option of the plan was tried. */
  lemma FactorySucceeds(lwip: bool, o: FactoryResults)
    ensures Factory(lwip, o).result == Success
        <==> o.create == Success
              && forall k :: 0 <= k < |Plan(lwip)| && Plan(lwip)[k].fatal ==> o.ResultOf(Plan(lwip)[k].option) == Success
    ensures Factory(lwip, o).result == Success ==> |Factory(lwip, o).tried| == |Plan(lwip)|
  {
    if o.create == Success {
      RunStepsSucceeds(Plan(lwip), o, o.create);
    }
  }

  /** A failure of the disconnect-callback step is only logged: the factory's result and the
      options it tries do not depend on it. */
  lemma DisconnectCallbackOnlyLogged(lwip: bool, o: FactoryResults, e: Rslt)
    ensures Factory(lwip, o) == Factory(lwip, o.(disconnectCallback := e))
  {
    if o.create == Success {
      var plan := Plan(lwip);
      forall k | 0 <= k < |plan| && plan[k].option.DisconnectCallback?
        ensures !plan[k].fatal && k + 1 < |plan|
      {
        assert k == 1;
      }
      NonFatalResultOverwritten(plan, o, e, o.create, o.create);
    }
  }

  /** Options are tried in the plan's order: receive callback, disconnect callback, the three
      keepalive tuning options (lwIP only), keepalive enable. */
  lemma FactoryTriesPlanPrefix(lwip: bool, o: FactoryResults)
    ensures |Factory(lwip, o).tried| <= |Plan(lwip)|
    ensures forall k :: 0 <= k < |Factory(lwip, o).tried| ==> Factory(lwip, o).tried[k] == Plan(lwip)[k].option
  {
  }

  /** Once the socket exists, the factory always passes the receive-callback record, and that
      record is bound to no handler: the receive callback it installs is indeterminate. */
  lemma UnassignedReceiveRecord(lwip: bool, o: FactoryResults)
    requires o.create == Success
    ensures Factory(lwip, o).tried != []
    ensures Factory(lwip, o).tried[0] == ReceiveCallback(Unassigned)
    ensures !CallbackBound(Factory(lwip, o).tried[0])
  {
    FactoryExits(lwip, o);
  }

  /** The plan with the receive-callback record bound to a receive handler. */
  function IntendedPlan(lwip: bool): seq<Step>
  {
    Plan(lwip)[0 := Step(ReceiveCallback(ReceiveHandler), true)]
  }

  /** The factory running the intended plan. */
  function IntendedFactory(lwip: bool, o: FactoryResults): FactoryRun
  {
    if o.create != Success then FactoryRun(o.create, [])
    else RunSteps(IntendedPlan(lwip), o, o.create)
  }

  /** Replacing the first step by one with the same result and fatality changes only the
      first option tried. */
  lemma RunStepsFirstReplaced(steps: seq<Step>, s0: Step, o: FactoryResults, last: Rslt)
    requires steps != []
    requires o.ResultOf(s0.option) == o.ResultOf(steps[0].option) && s0.fatal == steps[0].fatal
    ensures var run, run' := RunSteps(steps, o, last), RunSteps(steps[0 := s0], o, last);
            run'.result == run.result && run'.tried == run.tried[0 := s0.option]
  {
    assert steps[0 := s0][1..] == steps[1..];
  }

  /** The intended factory returns what the factory returns and tries the same options, and
      every callback it installs is bound to a handler. */
  lemma IntendedFactoryBindsCallbacks(lwip: bool, o: FactoryResults)
    ensures IntendedFactory(lwip, o).result == Factory(lwip, o).result
    ensures |IntendedFactory(lwip, o).tried| == |Factory(lwip, o).tried|
    ensures forall k :: 0 <= k < |IntendedFactory(lwip, o).tried| ==> CallbackBound(IntendedFactory(lwip, o).tried[k])
  {
    if o.create == Success {
      var plan := Plan(lwip);
      RunStepsFirstReplaced(plan, Step(ReceiveCallback(ReceiveHandler), true), o, o.create);
      var intended := IntendedPlan(lwip);
      assert forall k :: 0 <= k < |intended| ==> CallbackBound(intended[k].option);
    }
  }
}
