/** The application state that the socket factory, the connector, the disconnection handler
    and the network task change in place: the global client socket and the semaphore
    `connect_to_server`. Sockets are counted as they are created and deleted, so that a
    leaked or doubly freed handle shows in the counters. */
module TcpClient {
  import opened KeepaliveConfig
  import opened SocketFactory
  import opened ServerConnector
  import opened ConnectionGate
  import WifiAssociator

  /** How the network task's setup ends. `BlockedAtGate` would be a task waiting for ever on
      its first take of the semaphore; it never happens. */
  datatype TaskOutcome = TaskHalted | BlockedAtGate | Running(connected: bool)

  class Client {
    /** A client socket is allocated and not yet deleted. */
    var socketLive: bool
    var created: nat
    var deleted: nat
    /** The count of the binary semaphore `connect_to_server`. */
    var gate: nat

    /** At most one socket is live, and only when one more socket was created than deleted;
        the semaphore stays binary. */
    ghost predicate Valid()
      reads this
    {
      deleted <= created <= deleted + 1
      && socketLive == (created == deleted + 1)
      && gate <= SemaphoreLimit
    }

    /** The semaphore is given exactly when there is no live connection to replace. */
    ghost predicate GateTracksSocket()
      reads this
    {
      gate == SemaphoreLimit <==> !socketLive
    }

    constructor ()
      ensures Valid() && !socketLive && created == 0 && deleted == 0 && gate == 0
    {
      socketLive, created, deleted, gate := false, 0, 0, 0;
    }

    /** `cy_rtos_semaphore_init` with limit 1 and initial count 0. */
    method InitGate()
      modifies this
      requires Valid()
      ensures Valid() && gate == InitCountForSemaphore
      ensures socketLive == old(socketLive) && created == old(created) && deleted == old(deleted)
    {
      gate := InitCountForSemaphore;
    }

    /** `cy_rtos_semaphore_set`: the count becomes 1 whatever it was. */
    method SetGate()
      modifies this
      requires Valid()
      ensures Valid() && gate == SemaphoreLimit && gate == Give(old(gate))
      ensures socketLive == old(socketLive) && created == old(created) && deleted == old(deleted)
    {
      gate := Give(gate);
    }

    /** `cy_rtos_semaphore_get` with no timeout: takes the semaphore when it is given;
        otherwise the caller would wait for ever, reported as `acquired == false`. */
    method GetGate() returns (acquired: bool)
      modifies this
      requires Valid()
      ensures Valid()
      ensures acquired <==> old(gate) != 0
      ensures acquired ==> Take(old(gate)) == Some(gate) && gate == 0
      ensures !acquired ==> gate == old(gate)
      ensures socketLive == old(socketLive) && created == old(created) && deleted == old(deleted)
    {
      match Take(gate)
      case None => acquired := false;
      case Some(c) => gate := c; acquired := true;
    }

    /** `cy_socket_delete` on the client handle. */
    method DeleteSocket()
      modifies this
      requires Valid() && socketLive
      ensures Valid() && !socketLive
      ensures created == old(created) && deleted == old(deleted) + 1 && gate == old(gate)
    {
      socketLive := false;
      deleted := deleted + 1;
    }

    /** `create_tcp_client_socket`: create the handle, then set the options one by one,
        returning at the first failure of any step but the disconnect callback, whose failure
        is only logged. Returns the result and the options it tried to set. */
    method CreateTcpClientSocket(lwip: bool, o: FactoryResults) returns (r: Rslt, tried: seq<SocketOption>)
      modifies this
      requires Valid() && !socketLive
      ensures Valid()
      ensures r == Factory(lwip, o).result && tried == Factory(lwip, o).tried
      ensures socketLive <==> o.create == Success
      ensures created == old(created) + (if o.create == Success then 1 else 0)
      ensures deleted == old(deleted) && gate == old(gate)
    {
      FactoryExits(lwip, o);
      tried := [];
      r := o.create;
      if r != Success {
        return;
      }
      socketLive, created := true, created + 1;

      r := o.receiveCallback;
      tried := tried + [ReceiveOption];
      if r != Success {
        return;
      }

      r := o.disconnectCallback;
      tried := tried + [DisconnectOption];
      // a failure here is only logged

      if lwip {
        r := o.keepaliveInterval;
        tried := tried + [KeepaliveInterval(TcpKeepAliveIntervalMs)];
        if r != Success {
          return;
        }
        r := o.keepaliveCount;
        tried := tried + [KeepaliveCount(TcpKeepAliveRetryCount)];
        if r != Success {
          return;
        }
        r := o.keepaliveIdleTime;
        tried := tried + [KeepaliveIdleTime(TcpKeepAliveIdleTimeMs)];
        if r != Success {
          return;
        }
      }

      r := o.keepaliveEnable;
      tried := tried + [KeepaliveEnable(KeepAliveOn)];
    }

    /** `connect_to_tcp_server`: up to five rounds of create, connect and, when refused,
        delete. A factory failure halts the application. `logged` holds the codes of the
        "could not connect" log lines. */
    method ConnectToTcpServer(lwip: bool, tries: seq<Attempt>) returns (outcome: ConnectOutcome, logged: seq<Rslt>)
      modifies this
      requires Valid() && !socketLive
      requires MaxTcpServerConnRetries <= |tries|
      ensures Valid() && gate == old(gate)
      ensures var run := ConnectFrom(lwip, tries, 0);
              outcome == run.outcome && logged == run.logged
              && created == old(created) + run.created && deleted == old(deleted) + run.deleted
    {
      var result := SocketsTimeout;
      logged := [];
      var connRetries := 0;
      while connRetries < MaxTcpServerConnRetries
        invariant connRetries <= MaxTcpServerConnRetries
        invariant Valid() && !socketLive && gate == old(gate)
        invariant created == old(created) + connRetries && deleted == old(deleted) + connRetries
        invariant logged == seq(connRetries, _ => SocketsTimeout)
        invariant forall j :: 0 <= j < connRetries ==> FailsCleanly(lwip, tries[j])
      {
        var connResult, _ := CreateTcpClientSocket(lwip, tries[connRetries].factory);
        if connResult != Success {
          outcome := Halted;
          CleanFailuresShift(lwip, tries, 0, connRetries);
          return;
        }
        connResult := tries[connRetries].connect;
        if connResult == Success {
          outcome := Returned(connResult);
          CleanFailuresShift(lwip, tries, 0, connRetries);
          return;
        }
        // the log line prints `result`, not the connect error
        assert logged + [result] == seq(connRetries + 1, _ => SocketsTimeout);
        logged := logged + [result];
        DeleteSocket();
        connRetries := connRetries + 1;
      }
      outcome := Returned(result);
      CleanFailuresShift(lwip, tries, 0, MaxTcpServerConnRetries);
    }

    /** `tcp_disconnection_handler`: disconnect, delete the handle, give the semaphore and
        return the disconnect result. `disconnectResult` is what the disconnect call reports;
        `timeoutMs` is the timeout passed to it. Nothing in the application takes the
        semaphore again, so no reconnection follows. */
    method TcpDisconnectionHandler(disconnectResult: Rslt) returns (r: Rslt, timeoutMs: nat)
      modifies this
      requires Valid() && socketLive
      ensures Valid() && !socketLive && GateTracksSocket()
      ensures r == disconnectResult && timeoutMs == DisconnectionTimeout
      ensures created == old(created) && deleted == old(deleted) + 1 && gate == SemaphoreLimit
    {
      timeoutMs := DisconnectionTimeout;
      r := disconnectResult;
      DeleteSocket();
      SetGate();
    }

    /** The TCP part of `network_idle_task`: associate with the access point, create the
        semaphore and give it, initialise the socket library, take the semaphore, connect to
        the server, and give the semaphore back when that fails. The server address read from
        the UART is not modelled here. */
    method NetworkIdleTaskSetup(wifiOutcomes: seq<Rslt>, socketInit: Rslt, lwip: bool, tries: seq<Attempt>)
      returns (outcome: TaskOutcome)
      modifies this
      requires Valid() && !socketLive
      requires |wifiOutcomes| >= MaxWifiConnRetries && MaxTcpServerConnRetries <= |tries|
      ensures Valid()
      ensures outcome != BlockedAtGate
      ensures outcome == TaskHalted
              <==> !WifiAssociator.SomeAttemptSucceeds(wifiOutcomes) || socketInit != Success
                   || ConnectFrom(lwip, tries, 0).outcome == Halted
      ensures var reached := WifiAssociator.SomeAttemptSucceeds(wifiOutcomes) && socketInit == Success;
              var run := ConnectFrom(lwip, tries, 0);
              created == old(created) + (if reached then run.created else 0)
              && deleted == old(deleted) + (if reached then run.deleted else 0)
      ensures outcome.Running? ==> GateTracksSocket()
                                   && outcome.connected == socketLive
                                   && (socketLive <==> ConnectFrom(lwip, tries, 0).outcome == Returned(Success))
    {
      var wifiResult, _, _ := WifiAssociator.ConnectToWifiAp(wifiOutcomes);
      if wifiResult != Success {
        return TaskHalted;
      }
      InitGate();
      SetGate();
      if socketInit != Success {
        return TaskHalted;
      }
      var acquired := GetGate();
      if !acquired {
        assert false;
        return BlockedAtGate;
      }
      var result, _ := ConnectToTcpServer(lwip, tries);
      if result == Halted {
        return TaskHalted;
      }
      if result != Returned(Success) {
        SetGate();
      }
      outcome := Running(result == Returned(Success));
    }
  }
}
