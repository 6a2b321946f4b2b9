/** The Wi-Fi association retry loop of the idle task (`connect_to_wifi_ap`). */
module WifiAssociator {
  import opened KeepaliveConfig

  /** Some attempt within the retry budget reports success. */
  ghost predicate SomeAttemptSucceeds(outcomes: seq<Rslt>)
  {
    exists k :: 0 <= k < MaxWifiConnRetries && k < |outcomes| && outcomes[k] == Success
  }

  /** Joins the access point. `outcomes[k]` is what the Wi-Fi connection manager reports for
      the (k+1)-th join call. Returns the result handed back to the task, how many join calls
      were made, and the argument of every delay call, in order. */
  method ConnectToWifiAp(outcomes: seq<Rslt>) returns (result: Rslt, attempts: nat, delaysMs: seq<nat>)
    requires |outcomes| >= MaxWifiConnRetries
    ensures 1 <= attempts <= MaxWifiConnRetries
    ensures result == outcomes[attempts - 1]
    ensures forall k :: 0 <= k < attempts - 1 ==> outcomes[k] != Success
    ensures result == Success <==> SomeAttemptSucceeds(outcomes)
    ensures result == Success ==> |delaysMs| == attempts - 1
    ensures result != Success ==> attempts == MaxWifiConnRetries && |delaysMs| == MaxWifiConnRetries
    ensures forall k :: 0 <= k < |delaysMs| ==> delaysMs[k] == WifiConnRetryIntervalMs
  {
    attempts, delaysMs := 0, [];
    // The loop body runs at least once, so `result` always holds the latest join result.
    result := Success;
    var connRetries: nat := 0;
    while connRetries < MaxWifiConnRetries
      invariant connRetries <= MaxWifiConnRetries
      invariant attempts == connRetries && |delaysMs| == connRetries
      invariant connRetries > 0 ==> result == outcomes[connRetries - 1] && result != Success
      invariant forall k :: 0 <= k < connRetries ==> outcomes[k] != Success
      invariant forall k :: 0 <= k < |delaysMs| ==> delaysMs[k] == WifiConnRetryIntervalMs
    {
      result := outcomes[connRetries];
      attempts := attempts + 1;
      if result == Success {
        return;
      }
      delaysMs := delaysMs + [WifiConnRetryIntervalMs];
      connRetries := connRetries + 1;
    }
  }
}
