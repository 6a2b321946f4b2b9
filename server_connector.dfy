/** The retry policy of `connect_to_tcp_server`: up to five rounds of "create a keepalive
    socket, connect it, and delete it when the connection is refused". A factory failure stops
    the application; running out of rounds returns the secure-sockets timeout code. */
module ServerConnector {
  import opened KeepaliveConfig
  import opened SocketFactory

  /** What the library reports in one round: the factory's calls and the connect call. */
  datatype Attempt = Attempt(factory: FactoryResults, connect: Rslt)

  /** `Halted` stands for `handle_app_error`, which never returns. */
  datatype ConnectOutcome = Returned(result: Rslt) | Halted

  /** How the retry loop ends, how many sockets it created and deleted, and the codes its
      "could not connect" log lines print. */
  datatype ConnectRun = ConnectRun(outcome: ConnectOutcome, created: nat, deleted: nat, logged: seq<Rslt>)

  /** A round whose socket is set up but whose connection is refused. */
  predicate FailsCleanly(lwip: bool, a: Attempt)
  {
    Factory(lwip, a.factory).result == Success && a.connect != Success
  }

  /** The rounds from `i` on, given the reports `tries` of every round. */
  function ConnectFrom(lwip: bool, tries: seq<Attempt>, i: nat): (run: ConnectRun)
    requires i <= MaxTcpServerConnRetries <= |tries|
    ensures run.deleted <= run.created <= run.deleted + 1
    ensures run.created <= MaxTcpServerConnRetries - i
    ensures run.outcome == Returned(Success) ==> run.created == run.deleted + 1
    ensures run.outcome.Returned? && run.outcome.result != Success
            ==> run.outcome.result == SocketsTimeout
                && run.created == run.deleted == MaxTcpServerConnRetries - i
    ensures forall k :: 0 <= k < |run.logged| ==> run.logged[k] == SocketsTimeout
    decreases MaxTcpServerConnRetries - i
  {
    if i == MaxTcpServerConnRetries then ConnectRun(Returned(SocketsTimeout), 0, 0, [])
    else
      var a := tries[i];
      if Factory(lwip, a.factory).result != Success then
        // a socket that was created before a setup step failed is left allocated
        ConnectRun(Halted, if a.factory.create == Success then 1 else 0, 0, [])
      else if a.connect == Success then ConnectRun(Returned(Success), 1, 0, [])
      else
        var rest := ConnectFrom(lwip, tries, i + 1);
        ConnectRun(rest.outcome, rest.created + 1, rest.deleted + 1, [SocketsTimeout] + rest.logged)
  }

  /** Rounds `i` to `k` that each fail cleanly add one creation, one deletion and one log
      line each, and hand over to round `k`. */
  lemma {:induction false} CleanFailuresShift(lwip: bool, tries: seq<Attempt>, i: nat, k: nat)
    requires i <= k <= MaxTcpServerConnRetries <= |tries|
    requires forall j :: i <= j < k ==> FailsCleanly(lwip, tries[j])
    ensures var rest := ConnectFrom(lwip, tries, k);
            ConnectFrom(lwip, tries, i)
            == ConnectRun(rest.outcome, rest.created + (k - i), rest.deleted + (k - i),
                          seq(k - i, _ => SocketsTimeout) + rest.logged)
    decreases k - i
  {
    if i < k {
      CleanFailuresShift(lwip, tries, i + 1, k);
      assert [SocketsTimeout] + seq(k - (i + 1), _ => SocketsTimeout) == seq(k - i, _ => SocketsTimeout);
    }
  }

  /** Connecting on round k (1 <= k <= 5) after k - 1 refusals creates k sockets, deletes
      k - 1 and returns success, leaving one socket live. */
  lemma ConnectsOnRound(lwip: bool, tries: seq<Attempt>, k: nat)
    requires 1 <= k <= MaxTcpServerConnRetries <= |tries|
    requires forall j :: 0 <= j < k - 1 ==> FailsCleanly(lwip, tries[j])
    requires Factory(lwip, tries[k - 1].factory).result == Success && tries[k - 1].connect == Success
    ensures ConnectFrom(lwip, tries, 0)
            == ConnectRun(Returned(Success), k, k - 1, seq(k - 1, _ => SocketsTimeout))
  {
    CleanFailuresShift(lwip, tries, 0, k - 1);
  }

  /** Five refusals create and delete five sockets and return the timeout code, whatever the
      connect calls reported. */
  lemma ExhaustedReturnsTimeout(lwip: bool, tries: seq<Attempt>)
    requires MaxTcpServerConnRetries <= |tries|
    requires forall j :: 0 <= j < MaxTcpServerConnRetries ==> FailsCleanly(lwip, tries[j])
    ensures ConnectFrom(lwip, tries, 0)
            == ConnectRun(Returned(SocketsTimeout), MaxTcpServerConnRetries, MaxTcpServerConnRetries,
                          seq(MaxTcpServerConnRetries, _ => SocketsTimeout))
  {
    CleanFailuresShift(lwip, tries, 0, MaxTcpServerConnRetries);
  }

  /** A factory failure on round k halts without another round; the socket of that round is
      still allocated exactly when its create call succeeded. */
  lemma FactoryFailureHalts(lwip: bool, tries: seq<Attempt>, k: nat)
    requires 1 <= k <= MaxTcpServerConnRetries <= |tries|
    requires forall j :: 0 <= j < k - 1 ==> FailsCleanly(lwip, tries[j])
    requires Factory(lwip, tries[k - 1].factory).result != Success
    ensures var run := ConnectFrom(lwip, tries, 0);
            run.outcome == Halted
            && run.deleted == k - 1
            && run.created == k - 1 + (if tries[k - 1].factory.create == Success then 1 else 0)
  {
    CleanFailuresShift(lwip, tries, 0, k - 1);
  }

  /** The connector returns only success or the timeout code: never the connect call's own
      error, which is dropped. */
  lemma NeverReturnsConnectError(lwip: bool, tries: seq<Attempt>, e: Rslt)
    requires MaxTcpServerConnRetries <= |tries|
    requires e != Success && e != SocketsTimeout
    ensures ConnectFrom(lwip, tries, 0).outcome != Returned(e)
  {
  }

  /** Success is returned exactly when some round connects after only clean refusals. */
  lemma {:induction false} SuccessNeedsConnectingRound(lwip: bool, tries: seq<Attempt>, i: nat)
    requires i <= MaxTcpServerConnRetries <= |tries|
    ensures ConnectFrom(lwip, tries, i).outcome == Returned(Success)
        <==> exists k :: i <= k < MaxTcpServerConnRetries
                         && (forall j :: i <= j < k ==> FailsCleanly(lwip, tries[j]))
                         && Factory(lwip, tries[k].factory).result == Success && tries[k].connect == Success
    decreases MaxTcpServerConnRetries - i
  {
    if i < MaxTcpServerConnRetries {
      SuccessNeedsConnectingRound(lwip, tries, i + 1);
      if FailsCleanly(lwip, tries[i]) {
        if ConnectFrom(lwip, tries, i + 1).outcome == Returned(Success) {
          var k :| i + 1 <= k < MaxTcpServerConnRetries
                   && (forall j :: i + 1 <= j < k ==> FailsCleanly(lwip, tries[j]))
                   && Factory(lwip, tries[k].factory).result == Success && tries[k].connect == Success;
          assert forall j :: i <= j < k ==> FailsCleanly(lwip, tries[j]);
        }
      }
    }
  }
}
