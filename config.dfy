/** Result codes and compile-time configuration of the TCP keepalive offload application. */
module KeepaliveConfig {

  /** A `cy_rslt_t` as the application sees it: success, the secure-sockets timeout code the
      server connector reports on exhaustion, or any other failure code from a library call.
      The numeric encoding of these codes is not modelled. */
  datatype Rslt = Success | SocketsTimeout | Failure(code: nat)

  /** Wi-Fi association: at most ten attempts, one second apart. */
  const MaxWifiConnRetries: nat := 10
  const WifiConnRetryIntervalMs: nat := 1000

  /** TCP server connection: at most five attempts. */
  const MaxTcpServerConnRetries: nat := 5

  /** Keepalive parameters installed on every client socket. */
  const TcpKeepAliveIdleTimeMs: nat := 10000
  const TcpKeepAliveIntervalMs: nat := 1000
  const TcpKeepAliveRetryCount: nat := 2
  const KeepAliveOn: int := 1

  /** Size of the UART line buffer of the idle task. */
  const UartBufferSize: nat := 20

  /** The connection semaphore: limit one, initial count zero. */
  const SemaphoreLimit: nat := 1
  const InitCountForSemaphore: nat := 0

  /** Timeout passed to the disconnect call of the disconnection handler. */
  const DisconnectionTimeout: nat := 0
}
