# Internet connection monitor: the per-target state machine

The monitor starts one daemon thread per target. Three threads ping an address, and one opens a TCP connection to a (host, port) pair. Each thread loops forever. It probes its target, keeps the last observed state in a local `last_state` (`None`, then `'up'` or `'down'`), and logs a message when that state calls for one. A success logs "restored" (TCP: "established") unless the target was already up. A failure logs "lost" (TCP: "failed") unless the target was already down. Otherwise it logs "still down". The state then becomes what the probe reported.

The model has two modules:

- `ConnectionState` (connection_state.dfy) holds the transition table both loops share: `State`, `Outcome` and `Event`, with `Step`. `Replay` folds `Step` over a finite sequence of probe outcomes. `WellFormedLog` is a grammar of the logs a loop can write, and lemmas prove that a loop's log always fits it, and that every log fitting it can be produced. The lemmas also show that restored and lost messages alternate, that "still down" only follows a loss, and that there is one loss report per failed probe.
- `ProbeLoop` (probe_loop.dfy) holds the loops themselves. `Message` gives the message text for each strategy. `Monitor` is the loop body as a `while` loop over a finite outcome sequence, with `lastState` as a local variable. It is proved against `Replay`. `PingServer` and `TcpCheck` are the two loops of the source, and each is an instance of `Monitor`.

The probe is an input: each element of the outcome sequence is one probe's result (no exception, or the caught exception). The log is the sequence of message texts written.

Each thread keeps only a local three-valued state and logs only restored, lost and still-down messages. There is no heartbeat, no timestamp and no state shared between threads.

## Model

| member | source | states |
|---|---|---|
| `ConnectionState.Step` | check_internet_connection_health.py:45-55 | the new state is `Up` exactly on success and is never `Unknown`; "restored" exactly on a success when not already up; "lost" exactly on a failure when not already down (so also on the very first failure); "still down" exactly on a failure when already down; no message exactly on a success when already up |
| `ConnectionState.Replay` | check_internet_connection_health.py:43-56 | running the loop over n probes logs at most n messages; with no probes nothing changes; after at least one probe the state is never unknown again and is determined by the most recent probe alone |
| `ConnectionState.EventsWellFormed` | check_internet_connection_health.py:43-55 | every log of a freshly started loop is well formed (never opens with "still down"; "lost" only right after "restored"; "restored" and "still down" never right after "restored"); after one probe the log is non-empty; the loop's state is up exactly when its last message was "restored" |
| `ConnectionState.EveryWellFormedLogOccurs` | check_internet_connection_health.py:43-55 | conversely, every well-formed log is exactly the log of some run (a success per "restored", a failure per other message), so the grammar describes the reachable logs exactly |
| `ConnectionState.EdgesAlternate` | check_internet_connection_health.py:47-55 | in a well-formed log, the restored/lost messages strictly alternate, and the last of them is "restored" exactly when the log ends in "restored" |
| `ConnectionState.RestoredAndLostAlternate` | check_internet_connection_health.py:43-55 | over any finite run, restored and lost messages strictly alternate, and a "still down" message is never first and only follows a "lost" or "still down" |
| `ConnectionState.OneReportPerFailure` | check_internet_connection_health.py:47-55 | over a whole run, the number of "lost" and "still down" messages equals the number of failed probes (the per-probe fact, one message per failure and none of these for a success, is `Step`'s) |
| `ProbeLoop.Message` | check_internet_connection_health.py:48-70 | each message text ends with the target: the ping address followed by ")", or the TCP host name |
| `ProbeLoop.MessageIdentifies` | check_internet_connection_health.py:48-70 | within one loop, equal message texts come from the same kind of event and the same target |
| `ProbeLoop.MessageNamesLoop` | check_internet_connection_health.py:48-70 | no ping message text equals any TCP message text, so a line in the shared log also tells which loop wrote it |
| `ProbeLoop.Monitor` | check_internet_connection_health.py:43-55 | the loop with a local `lastState` starting unknown ends in the state and with the events of `Replay` from unknown; the events form a well-formed log; line i of the log is the message of event i |
| `ProbeLoop.PingServer` | check_internet_connection_health.py:42-56 | the lines written by the ping loop are, one for one, the ping messages for the events of the transition table |
| `ProbeLoop.TcpCheck` | check_internet_connection_health.py:58-72 | the lines written by the TCP loop are, one for one, the TCP messages naming the host for the events of the transition table; the port never appears |

## Left out

- Logger setup (check_internet_connection_health.py:13-40): the JSON formatter, the rotating file handler and the stdout handler are output plumbing. A message is modelled as its text, with the `'details'` wrapper, timestamp and level dropped.
- The probes (check_internet_connection_health.py:46, 62): the `ping` subprocess and `socket.create_connection` do network I/O. Each is an opaque outcome taken from the input sequence.
- Exception classes: `ping_server` catches only `CalledProcessError` (check_internet_connection_health.py:50). A `TimeoutExpired` from the 10-second timeout, or a missing `ping` binary, therefore escapes and ends that thread. The model takes every outcome as success or caught failure and does not model a thread dying.
- Threads, `time.sleep` and the infinite loops (check_internet_connection_health.py:44, 56, 60, 72, 78-84): each `while True` loop is replaced by a loop over a finite outcome sequence. Each thread's `last_state` is a local, so targets never interact, and the model has one independent run per target.
- The hard-coded target lists (check_internet_connection_health.py:75-76): configuration data, not logic.
