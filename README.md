# mcpssh session core, modelled in Dafny

This project models the core of mcpssh. mcpssh is a server that keeps several interactive terminal sessions open, each one a local shell or an `ssh` connection running under a pseudo-terminal (PTY). It offers three tools to one caller: `start_session`, `interact_session` and `close_session`.

The model covers four parts:

- **The session registry** (`SessionManager`): a map from session id to session, with `Add`, `Get` and `Remove`.
- **A session's output buffer.** The background reader appends to it in whole chunks. `ReadAndClear` drains it.
- **The two one-shot signals.** `done` (stop) and `exited` are channels in Go, closed at most once. They are modelled as boolean flags.
- **The decision logic of the three handlers.**

Concurrency is modelled as an interleaving of atomic steps:

- `Append` and `ReadAndClear` are critical sections under the buffer lock `bufMu`.
- `Add`, `Get` and `Remove` are critical sections under the registry lock.
- `ReaderStep` is one loop iteration of the reader. Its read happens outside `bufMu` (mcpssh.go:109), and only its append takes the lock (mcpssh.go:111-113). Modelling the step as one unit is sound because the reader is the only writer of the buffer.
- `Write` takes no lock (mcpssh.go:212). It touches only the terminal, never the buffer.
- `RunReader` is a sequence of reader steps, not one step.

The modules follow the components:

- `Buffering` (buffering.dfy) is the reference model of the buffer. A history of locked `Append` and `Drain` steps is replayed into the drained strings and the remaining buffer. The lemmas there prove that no byte is lost, duplicated or reordered, for every interleaving.
- `Sessions` (sessions.dfy) holds the `Session` class, the reader step, the reader loop, the drain and the write. `ReaderSpec` is the reference definition of what the reader loop does with a sequence of read outcomes.
- `Registry` (registry.dfy) holds `SessionManager`. Its invariant `Valid()` says that every registered session is filed under its own id and has not been torn down. Because of this invariant, `Remove` never closes a `done` channel twice: the assertion before the close is proved.
- `Handlers` (handlers.dfy) holds the three handlers. The registry is passed in as a parameter instead of being a global.

The model leaves out what the operating system does, and passes it in as parameters instead:

- the result of spawning the command (`spawnErr`);
- the result of a write: its error and the count of bytes written (`writeErr`, `written`);
- the value of `$SHELL` (`shellEnv`);
- the reads the background reader performs while a handler sleeps, and between the start handler's drain and its exit test (`settleReads`, `waitReads`, `lateReads`);
- the fresh id returned by `uuid.New()` (`freshId`).

Three points of the code that the model keeps as written:

- The deferred `close(s.exited)` at mcpssh.go:102 runs on every return of the reader. That includes the return at mcpssh.go:106-107, taken when `done` is signalled.
- mcpssh.go:92-94 kills the process whenever `Cmd.Process != nil`. It does not check that the process is still running.
- mcpssh.go:178 drains the buffer before the exit test at mcpssh.go:181-184, and the reader keeps running in between. Reads it completes in that window are not in the start handler's reply. If the process has exited by the time of the test, those bytes are removed along with the session (the `lateReads` parameter).

## Model

| member | source | states |
|---|---|---|
| `Buffering.ReplayConserves` | mcpssh.go:109-132 | For every interleaving of locked appends and drains: the drained strings in drain order, followed by the current buffer, equal all appended chunks concatenated in append order. |
| `Buffering.ReplaySnoc` | mcpssh.go:110-132 | One more locked step. An append extends the buffer by its chunk and leaves the drains alone. A drain returns the whole current buffer and leaves it empty. |
| `Buffering.SecondDrainEmpty` | mcpssh.go:126-132 | Two drains with no append in between: the second returns "". |
| `Buffering.AppendsExtendBuffer` | mcpssh.go:110-114 | Appends never touch what was already drained, and they extend the buffer by exactly their chunks, in order. |
| `Buffering.DrainReturnsAppendsSince` | mcpssh.go:110-132 | A drain returns exactly the bytes appended since the previous drain: whole chunks only, never part of an append. |
| `Sessions.ReaderSpec` | mcpssh.go:100-123 | The reader loop as a function of the read outcomes it is offered. It never performs more reads than were offered. It performs every one of them unless it returns early. |
| `Sessions.ReaderSpecMeaning` | mcpssh.go:104-121 | The reader returns if and only if some read reports an error (EOF included). It returns right after the first such read, and no earlier read reported an error. What it appended is exactly the bytes of the reads it performed. |
| `Sessions.ReaderStopsForGood` | mcpssh.go:115-120 | Once the reader has returned, further read outcomes change nothing: they are never read. |
| `Sessions.ReaderSpecStep` | mcpssh.go:109-114 | If the reader has not returned, the next read is performed, its bytes are appended, and the reader returns exactly when that read reports an error. |
| `Sessions.Session.constructor` | mcpssh.go:162-169 | A new session has an empty buffer, an empty history, both signals open, its PTY open and its process not killed. |
| `Sessions.Session.Conserves` | mcpssh.go:109-132 | For a session whose buffer matches its history, all bytes appended so far (`Appended`) equal the bytes drained so far (`Drained`), concatenated, followed by the bytes still buffered. Every method below and every handler keeps that match, so this applies to any session a handler has touched. |
| `Sessions.Session.Append` | mcpssh.go:110-114 | The locked append adds exactly one non-empty chunk of at most 8192 bytes to the end of the buffer and to the history. It keeps the buffer equal to the replay of the history, leaves the drains alone, and adds the chunk to the appended bytes. |
| `Sessions.Session.ReaderStep` | mcpssh.go:104-121 | One loop iteration. With `done` signalled it closes `exited` and does not read. Otherwise it reads once and appends only when n > 0. It closes `exited` exactly when the read reports an error, after appending that read's final bytes. It runs only while `exited` is open, so `exited` is closed once and never reset. The drains are kept, and the appended bytes grow by exactly what was read. |
| `Sessions.Session.RunReader` | mcpssh.go:100-123 | The reader loop run while no teardown happens. Reads performed, bytes added to the buffer and to the appended bytes, and whether `exited` was closed are all exactly what `ReaderSpec` gives. Earlier drains are untouched, and the buffer keeps matching its history. |
| `Sessions.Session.ReadAndClear` | mcpssh.go:126-132 | Returns exactly the current buffer and leaves the buffer empty. It records one drain in the history, whose drains then end with the returned string, and it appends nothing. |
| `Sessions.Session.Write` | mcpssh.go:211-216 | A write reports the operating system's error, which is always an error, with nothing written, once the PTY is closed. A successful write delivers the whole input. A failed write delivers the prefix the operating system reports as written. |
| `Sessions.Delivered` | mcpssh.go:212 | What a write reporting n bytes delivered: a prefix of the input, of length n when n is shorter than the input, and the whole input otherwise. |
| `Registry.SessionManager.constructor` | mcpssh.go:39-41 | The registry starts empty and valid. |
| `Registry.SessionManager.Add` | mcpssh.go:73-77 | Inserts the session under its own id. No other entry changes. |
| `Registry.SessionManager.Get` | mcpssh.go:79-84 | Finds a session exactly when its id is registered, and returns that entry (nil otherwise). Changes nothing. |
| `Registry.SessionManager.Remove` | mcpssh.go:86-97 | Deletes only that key. On a present id it marks that session's `done` signalled, its PTY closed and its process killed (when it has one), and leaves its buffer and `exited` alone. On an absent id nothing changes. It keeps the invariant that registered sessions have `done` open, so `done` is never closed twice. |
| `Handlers.SelectCommand` | mcpssh.go:137-152 | No command exactly when the host is empty. For "local", the local shell. For anything else, the ssh invocation for that host. |
| `Handlers.ShellCommand` | mcpssh.go:143-148 | The local shell is `$SHELL` when it is set, and `/bin/bash` otherwise. It is never an empty program name. |
| `Handlers.SshCommand` | mcpssh.go:150-151 | `ssh -tt -o BatchMode=yes -o StrictHostKeyChecking=no host`, with the host as the last argument. |
| `Handlers.InteractReply` | mcpssh.go:225-230 | "(No new output)" when both the drained output and the input are empty, and the drained output otherwise. An empty reply therefore only ever answers non-empty input. |
| `Handlers.StartSession` | mcpssh.go:136-190 | Empty host: error, no spawn, registry unchanged. Spawn failure: error, registry unchanged. Process found exited at the exit test, during the settle interval or just after the drain: error carrying only the drained settle output, registry as before. The removed session (a ghost result) is newly allocated and torn down (`TornDown`): `done` and the PTY closed, the process killed, and the bytes read after the drain left in its buffer. Otherwise: the id and the drained output, and one new entry under the fresh id, newly allocated and in the `Started` state. That entry's reader is running, its buffer matches its history, its one drain was the settle output, and its buffer holds exactly what was read after the drain. |
| `Handlers.Launch` | mcpssh.go:160-189 | After a successful spawn: register, settle, drain. Then one of two outcomes. If `exited` is closed at the test, the session is removed and torn down, and an error is returned without the bytes read after the drain. Otherwise the session stays registered in the `Started` state, and its id and the settle output are returned. In both cases the session is a newly allocated object under the fresh id. |
| `Handlers.Settle` | mcpssh.go:176-182 | On a new session, the settle reads run as `ReaderSpec` says. The drain returns exactly their bytes, and that is the history's only drain. The reads after the drain run as `ReaderSpec` says too, unless the reader already returned. They decide whether `exited` is closed at the test, and they leave exactly their bytes in the buffer. |
| `Handlers.ReadsBeforeExitTest` | mcpssh.go:178-182 | The window between the settle drain and the exit test. If the reader has not returned, it completes the reads it is offered as `ReaderSpec` says. It leaves exactly their bytes in the freshly drained buffer, keeps the drains, and closes `exited` exactly when one of them reports an error. |
| `Handlers.InteractSession` | mcpssh.go:192-231 | Unknown id: "Session not found" error, registry unchanged. Already exited: the remaining output tagged "[Session exited]" as a non-error, recorded as one drain. The session is removed, with `done` and the PTY closed and the process killed, while `exited` and the written input stay as they were. Write failure: error, registry, buffer and history unchanged, and only the reported prefix of the input delivered. Otherwise: the `InteractReply` of everything buffered plus what the reader read during the wait. The buffer is drained into one new drain, the whole input is delivered, and the registry is unchanged. In every branch the session keeps matching its history. |
| `Handlers.Exchange` | mcpssh.go:211-230 | On a live session: write the input if there is any. A failed write ends the call with an error and leaves the buffer and history alone. Otherwise the reader runs during the wait with the effect `ReaderSpec` gives, then one drain returns all pending output, and the reply is chosen from it. |
| `Handlers.CloseSession` | mcpssh.go:233-237 | Always returns the non-error "Session closed". Deletes only that id, and changes nothing if the id is absent. So closing twice is the same as closing once. On a present id the session is torn down: `done` and the PTY closed, and the process killed when it has one. Its buffer, `exited`, history and written input stay as they were. |

## Left out

- PTY and process work (`pty.Start`, `exec.Command`, `Ptmx.Read`, `Ptmx.Write`, `Ptmx.Close`, `Process.Kill`): this is operating-system I/O. Spawn and write outcomes are parameters. Reads are a sequence of outcomes, each carrying at most 8192 bytes and an error of none, EOF or another failure. Closing the PTY and killing the process are flags.
- Goroutines, `sync.Mutex`, `sync.RWMutex` and channels are not modelled. Each critical section is one atomic step, as listed at the top. Within one handler call, only the reader's steps are interleaved: at the handler's sleep points, and between the start handler's drain and its exit test. Steps of other handlers running in the middle of a call are not modelled. `Remove` re-checks presence under the lock, so a concurrent close that gets there first only turns a later `Remove` into a no-op.
- A read that fails because `Remove` closed the PTY while the read was blocked becomes a reader step that finishes before the `Remove`. The reader's final append is then ordered before the teardown, not after it.
- `time.Sleep`, `CreatedAt`, the `wait_duration` argument and `time.ParseDuration`, with its 500 ms fallback: these are timing only. A wait only decides how many reads the reader performs, and those reads are the `settleReads` and `waitReads` parameters.
- `uuid.New()`: foreign randomness. The id is a parameter, and a precondition says it is not registered yet.
- `os.Getenv("SHELL")`: environment I/O. Its value is the `shellEnv` parameter.
- `main`, the MCP tool registration, `server.ServeStdio` and `args.GetString`: transport glue. A missing argument is modelled by passing its default ("" for host, session_id and input).
- Bytes are modelled as characters of a string. `bytes.Buffer.String()` copies them one for one.
- The `%v` rendering of Go error values: an error is modelled as its message string.
- `Handlers.Settle`: a teardown by a concurrent `close_session` during the settle interval is not modelled. The session is new, but its id is already registered and could be guessed.
- `Sessions.Session.RunReader`: requires that `done` is not signalled. A stop signal that arrives in the middle of a run is covered by `ReaderStep` alone. The handlers run the reader only on a session that no step of theirs tears down during the run.
- mcpssh_test.go: an integration test that needs a real `/bin/sh` and a PTY. It has no logic of its own.
