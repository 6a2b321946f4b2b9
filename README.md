# TCP keepalive offload: application control logic

This project models the control logic of the TCP keepalive offload application
(`proj_cm33_ns/tcp_keepalive_offload.c`). The application runs on a Wi-Fi microcontroller.
It joins an access point, reads a TCP server address from the UART, connects a keepalive-enabled
TCP client socket to that server, and lets the Wi-Fi chip keep the connection alive while the
host sleeps.

The results of the Wi-Fi connection manager and secure-sockets calls are oracles. Each is
given to the model as a sequence of result codes, or as a record of the results one call
sequence reports. The RTOS calls are not oracles:

- the semaphore `connect_to_server` is modelled as a binary semaphore whose give saturates at
  its limit of 1;
- each delay is recorded as its argument in milliseconds.

Result codes are the datatype `KeepaliveConfig.Rslt`, which has three cases:

- `Success`;
- `SocketsTimeout`, the secure-sockets timeout code;
- `Failure(code)`, any other error.

The model is split into these modules:

- `KeepaliveConfig` holds the application's constants (retry counts, intervals, buffer size,
  semaphore limit and initial count, disconnection timeout).
- `IpParameters` is the `MAKE_IP_PARAMETERS` byte-packing macro.
- `WifiAssociator` is `connect_to_wifi_ap`. It is a loop of at most 10 join attempts with a
  1000 ms delay after every failure.
- `UartLineEditor` is `read_uart_input`. It edits a line in place in a byte array. It is
  specified by the line editing function `Edit` and the highest write position `Peak`.
- `SocketFactory` is `create_tcp_client_socket`, described as a plan of option steps that a
  generic runner executes. Each step is fatal or only logged.
- `ConnectionGate` is the binary semaphore `connect_to_server` as pure give/take operations.
- `ServerConnector` is the retry policy of `connect_to_tcp_server` as a recursive function.
- `TcpClient.Client` is a class holding the state that the C code changes in place:
  - whether a client socket is live;
  - how many sockets were created and deleted;
  - the semaphore count.

  Its methods are the socket factory, the connector, the disconnection handler and the TCP
  part of `network_idle_task`. Each method is proved against the pure specification above.

Behaviour followed from the code:

- `connect_to_tcp_server` returns the secure-sockets timeout code after five refused
  connections, never the last connect error. Its "could not connect" log line also prints
  that constant. `ServerConnector.ConnectFrom` records both facts.
- The disconnection handler gives the semaphore, but nothing in the application takes it
  again after the first connection attempt: the only take is at start-up
  (`proj_cm33_ns/tcp_keepalive_offload.c:503`), so no reconnection follows a disconnection
  or a failed connection.
- `read_uart_input` has no bound check, so `UartLineEditor.ReadUartInput` requires the line
  to fit the buffer (see Findings).
- The loop condition of `read_uart_input` reads the buffer cell under the write position. That
  cell holds whatever was there before, so the model requires the buffer to start free of
  carriage returns and line feeds. The task clears the buffer to zero before the call
  (`proj_cm33_ns/tcp_keepalive_offload.c:509`).

## Model

| member | source | states |
|---|---|---|
| IpParameters.MakeIpParameters | proj_cm33_ns/tcp_keepalive_offload.c:80-83 | byte 0 (bits 0-7) of the packed word is `a`, byte 1 is `b`, byte 2 is `c` and byte 3 (bits 24-31) is `d`, when extracted by shift and mask |
| IpParameters.MakeIpParametersOfBytes | proj_cm33_ns/tcp_keepalive_offload.c:80-83 | packing the four bytes of any 32-bit word gives back that word, so packing and byte extraction are inverse |
| WifiAssociator.ConnectToWifiAp | proj_cm33_ns/tcp_keepalive_offload.c:595-618 | makes 1 to 10 join calls and stops at the first success; returns the last call's result; returns success exactly when one of the first 10 calls succeeds; one 1000 ms delay follows every failed call, so success on call k gives k-1 delays and exhaustion gives 10 |
| UartLineEditor.LineEndFrom | proj_cm33_ns/tcp_keepalive_offload.c:419 | the index returned is the first carriage return or line feed at or after the start, or the input length when there is none |
| UartLineEditor.FirstLineEnd | proj_cm33_ns/tcp_keepalive_offload.c:398-419 | the first carriage return or line feed of the input, which is where reading stops; no earlier byte is one |
| UartLineEditor.Edit | proj_cm33_ns/tcp_keepalive_offload.c:396-413 | the line kept after n typed bytes is at most n long and holds no backspace |
| UartLineEditor.Peak | proj_cm33_ns/tcp_keepalive_offload.c:406-413 | the highest write position reached lies between the kept length and the number of bytes typed |
| UartLineEditor.EditPlain | proj_cm33_ns/tcp_keepalive_offload.c:406-409 | without backspaces the kept line is exactly the typed bytes |
| UartLineEditor.TypeThenErase | proj_cm33_ns/tcp_keepalive_offload.c:406-413 | an ordinary byte followed by a backspace leaves the kept line unchanged |
| UartLineEditor.PeakOfPrefix | proj_cm33_ns/tcp_keepalive_offload.c:406-413 | the kept length and the peak after a prefix never exceed the peak after a longer prefix |
| UartLineEditor.ReadUartInput | proj_cm33_ns/tcp_keepalive_offload.c:384-423 | reading stops exactly when a carriage return or line feed arrives; the buffer's first `len` bytes are then the typed line with backspaced bytes removed, and a NUL stands at position `len` where the terminator was; buffer cells above the peak write position are untouched; requires the line to fit the buffer |
| UartLineEditor.UartOverflowWitness | proj_cm33_ns/tcp_keepalive_offload.c:384-423 | 20 ordinary bytes and a carriage return drive the write position to index 20, one past the 20-byte buffer |
| UartLineEditor.EditBounded | proj_cm33_ns/tcp_keepalive_offload.c:384-423 | the corrected editor keeps at most `cap` bytes, so the line and its NUL fit a buffer of `cap + 1` bytes |
| UartLineEditor.EditBoundedAgrees | proj_cm33_ns/tcp_keepalive_offload.c:384-423 | whenever the source stays within its buffer, the corrected editor keeps the same line |
| SocketFactory.RunSteps | proj_cm33_ns/tcp_keepalive_offload.c:653-725 | the options tried are a prefix of the plan, in plan order |
| SocketFactory.RunStepsLast | proj_cm33_ns/tcp_keepalive_offload.c:712-725 | the last step's result is the factory's result |
| SocketFactory.RunStepsSucceeds | proj_cm33_ns/tcp_keepalive_offload.c:662-725 | when the last step is fatal, the run succeeds exactly when every fatal step succeeds, and then every step was tried |
| SocketFactory.RunStepsFailure | proj_cm33_ns/tcp_keepalive_offload.c:662-722 | a failed run stopped at a fatal step that failed and returns that step's error |
| SocketFactory.NonFatalResultOverwritten | proj_cm33_ns/tcp_keepalive_offload.c:672-681 | the result of a step that is only logged and is followed by another step never shows in the outcome |
| SocketFactory.AfterCallbacksExits | proj_cm33_ns/tcp_keepalive_offload.c:683-725 | on lwIP the keepalive interval, count and idle-time steps each return their own error with the options tried so far; keepalive enable's result is returned when the steps before it succeed |
| SocketFactory.FactoryExits | proj_cm33_ns/tcp_keepalive_offload.c:653-725 | every exit of the factory: a create failure returns its error with nothing set; a receive-callback, tuning or enable failure returns that error; a disconnect-callback failure is overwritten by the next step |
| SocketFactory.FactorySucceeds | proj_cm33_ns/tcp_keepalive_offload.c:653-725 | the factory succeeds exactly when create and every step except the disconnect callback succeed; it then tried every option of the plan |
| SocketFactory.DisconnectCallbackOnlyLogged | proj_cm33_ns/tcp_keepalive_offload.c:672-681 | the factory's result and the options it tries do not depend on the disconnect callback's result |
| SocketFactory.FactoryTriesPlanPrefix | proj_cm33_ns/tcp_keepalive_offload.c:653-725 | the options are set in order: receive callback, disconnect callback, interval, count and idle time (lwIP only), enable |
| SocketFactory.UnassignedReceiveRecord | proj_cm33_ns/tcp_keepalive_offload.c:649-669 | once the socket exists, the first option passed is the receive-callback record, and that record is bound to no handler |
| SocketFactory.IntendedFactoryBindsCallbacks | proj_cm33_ns/tcp_keepalive_offload.c:636-726 | the factory with a bound receive record returns the same result and tries as many options as the factory, and every callback it installs is bound to a handler |
| ConnectionGate.Give | proj_cm33_ns/tcp_keepalive_offload.c:487-490 | giving the semaphore makes its count 1 from any count within the limit, and never more than one above the old count |
| ConnectionGate.Take | proj_cm33_ns/tcp_keepalive_offload.c:503 | a take with no timeout waits exactly when the count is 0, and otherwise lowers the count by one |
| ConnectionGate.GateStaysBinary | proj_cm33_ns/tcp_keepalive_offload.c:487-533 | from a count within the limit, any mix of gives and takes keeps the count in {0, 1} |
| ConnectionGate.Cycles | proj_cm33_ns/tcp_keepalive_offload.c:487-503 | n rounds of give then take are 2n operations alternating give and take; the application itself makes one round (490, 503) |
| ConnectionGate.CyclesNeverWait | proj_cm33_ns/tcp_keepalive_offload.c:487-503 | from the initial count 0, a give before each take lets every take proceed, and the count returns to 0 |
| ConnectionGate.TakeWithoutGiveWaits | proj_cm33_ns/tcp_keepalive_offload.c:131-133 | a second take after only one give waits |
| ConnectionGate.GivesThenTakes | proj_cm33_ns/tcp_keepalive_offload.c:131-133 | any number of gives in a row let only one take through |
| ConnectionGate.GivesSaturate | proj_cm33_ns/tcp_keepalive_offload.c:131 | from a count within the limit, any positive number of gives leaves the count at the limit of 1 |
| ConnectionGate.ApplicationGateRun | proj_cm33_ns/tcp_keepalive_offload.c:487-533 | the semaphore operations the application performs (give at 490, take at 503, then only gives) never wait, and leave the count at 1 once anything has been given after the take |
| ServerConnector.ConnectFrom | proj_cm33_ns/tcp_keepalive_offload.c:742-781 | at most one socket is left live; a returned success leaves exactly one live; any other returned code is the timeout code, after as many rounds as remain, with every socket deleted; every "could not connect" log line prints the timeout code |
| ServerConnector.CleanFailuresShift | proj_cm33_ns/tcp_keepalive_offload.c:747-777 | each refused round adds one created socket, one deleted socket and one log line, then hands on to the next round |
| ServerConnector.ConnectsOnRound | proj_cm33_ns/tcp_keepalive_offload.c:747-766 | connecting on round k after k-1 refusals creates k sockets, deletes k-1 and returns success |
| ServerConnector.ExhaustedReturnsTimeout | proj_cm33_ns/tcp_keepalive_offload.c:744-780 | five refusals create and delete five sockets and return the timeout code |
| ServerConnector.FactoryFailureHalts | proj_cm33_ns/tcp_keepalive_offload.c:750-756 | a factory failure on round k halts the application without another round; that round's socket stays allocated exactly when its create call succeeded |
| ServerConnector.NeverReturnsConnectError | proj_cm33_ns/tcp_keepalive_offload.c:744-780 | the connector never returns an error other than the timeout code |
| ServerConnector.SuccessNeedsConnectingRound | proj_cm33_ns/tcp_keepalive_offload.c:747-766 | success is returned exactly when some round connects after only refused rounds |
| TcpClient.Client.constructor | proj_cm33_ns/tcp_keepalive_offload.c:175-180 | at start there is no socket and the semaphore count is 0 |
| TcpClient.Client.InitGate | proj_cm33_ns/tcp_keepalive_offload.c:487 | the semaphore is created with count 0; nothing else changes |
| TcpClient.Client.SetGate | proj_cm33_ns/tcp_keepalive_offload.c:490 | a give leaves the count at 1; nothing else changes |
| TcpClient.Client.GetGate | proj_cm33_ns/tcp_keepalive_offload.c:503 | a take proceeds exactly when the count is positive and then leaves it at 0; nothing else changes |
| TcpClient.Client.DeleteSocket | proj_cm33_ns/tcp_keepalive_offload.c:774 | the live socket is deleted and counted |
| TcpClient.Client.CreateTcpClientSocket | proj_cm33_ns/tcp_keepalive_offload.c:636-726 | returns the result and tries the options the factory plan gives; a socket is left live exactly when create succeeded, whatever a later step reports |
| TcpClient.Client.ConnectToTcpServer | proj_cm33_ns/tcp_keepalive_offload.c:742-781 | the outcome, the log codes and the sockets created and deleted are those of the retry policy; at most one socket is live; the semaphore is untouched |
| TcpClient.Client.TcpDisconnectionHandler | proj_cm33_ns/tcp_keepalive_offload.c:798-814 | passes the disconnection timeout 0 to the disconnect call and returns its result, deletes the live socket and gives the semaphore, so the semaphore is given exactly when no socket is live |
| TcpClient.Client.NetworkIdleTaskSetup | proj_cm33_ns/tcp_keepalive_offload.c:478-534 | the first take never waits; the task halts exactly when Wi-Fi association, socket library start-up or the socket factory fails; the sockets created and deleted are the connector's when it is reached and none otherwise; when the task runs on, the semaphore is given exactly when no socket is live, and a socket is live exactly when the connector returned success |

## Left out

- Hardware bring-up (SDIO, interrupts, GPIO) and the deep-sleep callback are not modelled: they are register plumbing with no application logic.
- UART FIFO polling, the per-byte delay and the echo of typed bytes are not modelled. `ReadUartInput` consumes an input byte sequence, one byte per iteration. When the sequence runs out before a line end, it reports `done == false`; the source would keep polling.
- `cy_wcm_init`, `cy_socket_init`, `cy_wcm_connect_ap`, `cy_socket_create`, `cy_socket_setsockopt`, `cy_socket_connect` and `cy_socket_disconnect` are library calls whose source is not part of this model. Their results are inputs. `cy_wcm_init` and the printing of the assigned IP address are left out.
- `cy_nw_str_to_ipv4` and `cy_nw_ntoa` are not modelled. The server address read from the UART is not passed into the connector model, because nothing in the control logic depends on its value.
- The network task's UART read of the server address (509-517) is not called from `NetworkIdleTaskSetup`. It is modelled on its own by `ReadUartInput`.
- The steady-state loop calling `wait_net_suspend` (543-553) is not modelled: it is one blocking call with constant arguments.
- The keepalive probing itself (section 4.2.3.6 of RFC 1122) is not modelled: it is done by the network stack or the Wi-Fi chip. Only the options set and their order are modelled.
- The disconnection handler is called as an ordinary sequential method on a live socket. The asynchronous callback context, real delays and clocks are not modelled; delays are the list of their arguments.
- `handle_app_error` is the outcome `Halted`. The application stops there, so nothing after it is modelled.
- `printf` output is not modelled, except the error code printed by the connector's "could not connect" line.
- Numeric values of result codes are not modelled: the value of the secure-sockets timeout code is defined outside this file.
- `TCP_KEEPALIVE_OFFLOAD` is 0 in the source (77), which compiles the TCP path out. The model treats it as enabled. `COMPONENT_LWIP` is the parameter `lwip`.
- Callback contents are not modelled beyond the record each callback option passes: the disconnect-callback record is bound to the disconnection handler, and the receive-callback record `tcp_recv_option` is never assigned (see Findings). What the library does with an unassigned record is not modelled.
- UartLineEditor.ReadUartInput: requires the highest write position to stay below the buffer length, which the source does not check (see Findings); it also requires the buffer to start without carriage returns or line feeds, as the task's clearing of the buffer ensures.
- TcpClient.Client.TcpDisconnectionHandler: requires a live socket, since the callback is registered only on a created socket; a second disconnection event on an already deleted handle is not modelled.
- IpParameters.MakeIpParameters: states the packed word's bytes as bit-vector fields, not its value as an integer. Its arguments are bytes, while the macro casts any integer argument to 32 bits without masking it; `MAKE_IP_PARAMETERS(256, 0, 0, 0)` is 0x100, and that input is outside the model's domain. The file has no call site of the macro.
- ConnectionGate.Give: the saturating give (a give on a semaphore at its limit leaves the count at 1) is assumed about `cy_rtos_semaphore_set`, whose source is not part of this model, not derived from it. `GateStaysBinary` and the gate results of the class rest on it.

## Findings

| source | as written | input that shows it | evidently intended | confidence | as-written member | corrected member |
|---|---|---|---|---|---|---|
| proj_cm33_ns/tcp_keepalive_offload.c:384-423 | the write position advances on every ordinary byte without a bound check against the 20-byte buffer (129, 443) | 20 ordinary bytes then a carriage return: the carriage return and the NUL are stored at index 20, one past the end | ordinary bytes are dropped once 19 are kept, so the line and its NUL fit the buffer | not executed | UartLineEditor.UartOverflowWitness | UartLineEditor.EditBounded |
| proj_cm33_ns/tcp_keepalive_offload.c:649-669 | the receive-callback option record `tcp_recv_option` is declared but its callback and argument are never assigned before it is passed to the library; only the disconnect record is filled in (672-673) | any successful socket creation: the first option set is the unassigned receive record | the receive record is bound to a receive handler, as the disconnect record is bound to its handler | not executed | SocketFactory.UnassignedReceiveRecord | SocketFactory.IntendedFactoryBindsCallbacks |
