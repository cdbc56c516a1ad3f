/**
 * The three tool handlers: start, interact and close. The registry is passed
 * in rather than global. What the operating system does (spawning, writing,
 * the reads the background reader performs while a handler sleeps) is given
 * as parameters.
 */
module Handlers {
  import opened Wrappers
  import opened Buffering
  import opened Sessions
  import opened Registry

  /** A tool's reply: its text, and whether it is an error result. */
  datatype ToolResult = ToolResult(text: string, isError: bool)

  /** A command to spawn: the program and its arguments. */
  datatype Command = Command(program: string, args: seq<string>)

  const LocalHost := "local"
  const DefaultShell := "/bin/bash"
  const NoNewOutput := "(No new output)"

  /** The reply texts, as the handlers format them. */
  function SpawnFailedText(err: string): string
  {
    "Failed to start session: " + err
  }

  function ExitedAtStartText(output: string): string
  {
    "Session started but exited immediately (SSH error?):\n" + output
  }

  function StartedText(id: string, output: string): string
  {
    "Session started. ID: " + id + "\n\nOutput:\n" + output
  }

  function ExitedText(output: string): string
  {
    "[Session exited]\nRemaining Output:\n" + output
  }

  function WriteErrorText(err: string): string
  {
    "Write error: " + err
  }

  /** The local shell: the configured one, falling back to bash when none is configured. */
  function ShellCommand(shellEnv: string): (c: Command)
    ensures c.program != "" && c.args == []
    ensures shellEnv != "" ==> c.program == shellEnv
    ensures shellEnv == "" ==> c.program == DefaultShell
  {
    Command(if shellEnv == "" then DefaultShell else shellEnv, [])
  }

  /**
   * The remote shell: ssh, forced to allocate a terminal, failing instead of
   * prompting when it cannot authenticate, connecting to host.
   */
  function SshCommand(host: string): (c: Command)
    ensures c.program == "ssh"
    ensures |c.args| == 6 && c.args[5] == host
    ensures c.args[0] == "-tt"
    ensures c.args[1] == "-o" && c.args[2] == "BatchMode=yes"
    ensures c.args[3] == "-o" && c.args[4] == "StrictHostKeyChecking=no"
  {
    Command("ssh", ["-tt", "-o", "BatchMode=yes", "-o", "StrictHostKeyChecking=no", host])
  }

  /** The command start runs for host, or None when no host is given. */
  function SelectCommand(host: string, shellEnv: string): (c: Option<Command>)
    ensures c.None? <==> host == ""
    ensures host == LocalHost ==> c == Some(ShellCommand(shellEnv))
    ensures host != "" && host != LocalHost ==> c == Some(SshCommand(host))
  {
    if host == "" then None
    else if host == LocalHost then Some(ShellCommand(shellEnv))
    else Some(SshCommand(host))
  }

  /**
   * The text interact returns for the drained output: the sentinel instead of
   * an empty reply when nothing happened, so an empty reply is only ever the
   * answer to input that produced no output.
   */
  function InteractReply(output: string, input: string): (r: string)
    ensures output == "" && input == "" ==> r == NoNewOutput
    ensures output != "" || input != "" ==> r == output
    ensures r == "" ==> input != "" && output == ""
  {
    if output == "" && input == "" then NoNewOutput else output
  }

  /**
   * The output of the reads the reader completes in the window between the
   * settle drain and the exit test of start_session. There are such reads
   * only when the reader has not returned during the settle interval.
   */
  function LateBytes(run: ReaderRun, late: seq<ReadResult>): string
  {
    if run.stopped then "" else ReaderSpec(late).appended
  }

  /** Whether start_session finds "exited" closed when it tests it. */
  predicate ExitsAtStart(run: ReaderRun, late: seq<ReadResult>)
  {
    run.stopped || ReaderSpec(late).stopped
  }

  /**
   * start_session. spawnErr is the operating system's answer to spawning the
   * command, freshId the new session's id, settleReads the reads the
   * reader performs during the settle interval, and lateReads the reads the
   * reader completes between the drain and the exit test.
   */
  method StartSession(mgr: SessionManager, host: string, shellEnv: string,
                      spawnErr: Option<string>, freshId: string,
                      settleReads: seq<ReadResult>, lateReads: seq<ReadResult>)
    returns (res: ToolResult, spawned: Option<Command>, ghost session: Session?)
    requires mgr.Valid()
    requires freshId !in mgr.sessions
    requires forall i :: 0 <= i < |settleReads| ==> |settleReads[i].data| <= ReadChunkSize
    requires forall i :: 0 <= i < |lateReads| ==> |lateReads[i].data| <= ReadChunkSize
    modifies mgr
    ensures mgr.Valid()
    ensures spawned == SelectCommand(host, shellEnv)
    ensures host == "" ==>
      && res == ToolResult("Host argument is required", true) && mgr.sessions == old(mgr.sessions)
      && session == null
    ensures host != "" && spawnErr.Some? ==>
      && res == ToolResult(SpawnFailedText(spawnErr.value), true) && mgr.sessions == old(mgr.sessions)
      && session == null
    ensures host != "" && spawnErr.None? && ExitsAtStart(ReaderSpec(settleReads), lateReads) ==>
      && res == ToolResult(ExitedAtStartText(ReaderSpec(settleReads).appended), true)
      && mgr.sessions == old(mgr.sessions)
      && session != null && fresh(session) && session.id == freshId
      && TornDown(session, ReaderSpec(settleReads), lateReads)
    ensures host != "" && spawnErr.None? && !ExitsAtStart(ReaderSpec(settleReads), lateReads) ==>
      var run := ReaderSpec(settleReads);
      && res == ToolResult(StartedText(freshId, run.appended), false)
      && freshId in mgr.sessions
      && mgr.sessions == old(mgr.sessions)[freshId := mgr.sessions[freshId]]
      && session == mgr.sessions[freshId] && fresh(session)
      && Started(session, run, lateReads)
  {
    spawned := SelectCommand(host, shellEnv);
    if host == "" {
      res, session := ToolResult("Host argument is required", true), null;
    } else if spawnErr.Some? {
      res, session := ToolResult(SpawnFailedText(spawnErr.value), true), null;
    } else {
      res, session := Launch(mgr, freshId, settleReads, lateReads);
    }
  }

  /**
   * The state of a session start_session keeps: its reader is still
   * running, its buffer matches its history, the settle output was drained
   * exactly once, and the buffer holds only what the reader read after
   * that drain.
   */
  ghost predicate Started(s: Session, run: ReaderRun, late: seq<ReadResult>)
    reads s
  {
    && s.MatchesHistory()
    && !s.exited && s.hasProcess && s.sent == ""
    && s.Drained() == [run.appended]
    && s.Appended() == run.appended + LateBytes(run, late)
    && s.outputBuf == LateBytes(run, late)
  }

  /**
   * The state of a session start_session found exited and removed: torn
   * down (stop signal and terminal closed, process killed), with the bytes
   * read after the settle drain left in its buffer, never returned.
   */
  ghost predicate TornDown(s: Session, run: ReaderRun, late: seq<ReadResult>)
    reads s
  {
    && s.done && s.ptmxClosed && s.processKilled && s.hasProcess
    && s.exited && s.MatchesHistory() && s.sent == ""
    && s.Drained() == [run.appended]
    && s.Appended() == run.appended + LateBytes(run, late)
    && s.outputBuf == LateBytes(run, late)
  }

  /** Registering an id that was absent and then removing it restores the registry. */
  lemma AddThenRemove<V>(m: map<string, V>, k: string, v: V)
    requires k !in m
    ensures m[k := v] - {k} == m
  {
  }

  /**
   * The part of start_session after a successful spawn: register the new
   * session, let its reader run through the settle interval, drain, and
   * tear the session down again if its process has exited by the time the
   * handler looks. Reads completed after the drain are not part of the
   * settle output: on the exit path their bytes go with the removed session.
   */
  method Launch(mgr: SessionManager, freshId: string,
                settleReads: seq<ReadResult>, lateReads: seq<ReadResult>)
    returns (res: ToolResult, ghost session: Session)
    requires mgr.Valid()
    requires freshId !in mgr.sessions
    requires forall i :: 0 <= i < |settleReads| ==> |settleReads[i].data| <= ReadChunkSize
    requires forall i :: 0 <= i < |lateReads| ==> |lateReads[i].data| <= ReadChunkSize
    modifies mgr
    ensures mgr.Valid()
    ensures fresh(session) && session.id == freshId
    ensures ExitsAtStart(ReaderSpec(settleReads), lateReads) ==>
      && res == ToolResult(ExitedAtStartText(ReaderSpec(settleReads).appended), true)
      && mgr.sessions == old(mgr.sessions)
      && TornDown(session, ReaderSpec(settleReads), lateReads)
    ensures !ExitsAtStart(ReaderSpec(settleReads), lateReads) ==>
      && res == ToolResult(StartedText(freshId, ReaderSpec(settleReads).appended), false)
      && freshId in mgr.sessions
      && mgr.sessions == old(mgr.sessions)[freshId := session]
      && Started(session, ReaderSpec(settleReads), lateReads)
  {
    var sess := new Session(freshId, true);
    session := sess;
    mgr.Add(sess);
    var initialOutput := Settle(sess, settleReads, lateReads);
    if sess.exited {
      mgr.Remove(freshId);
      AddThenRemove(old(mgr.sessions), freshId, sess);
      res := ToolResult(ExitedAtStartText(initialOutput), true);
    } else {
      res := ToolResult(StartedText(freshId, initialOutput), false);
    }
  }

  /**
   * The settle interval of start_session on a new session: the reader runs
   * through the reads it is offered, the handler drains the buffer, and
   * the reader may complete more reads before the handler tests "exited".
   */
  method Settle(sess: Session, settleReads: seq<ReadResult>, lateReads: seq<ReadResult>)
    returns (initialOutput: string)
    requires sess.MatchesHistory() && sess.history == [] && sess.outputBuf == ""
    requires !sess.done && !sess.exited
    requires forall i :: 0 <= i < |settleReads| ==> |settleReads[i].data| <= ReadChunkSize
    requires forall i :: 0 <= i < |lateReads| ==> |lateReads[i].data| <= ReadChunkSize
    modifies sess`outputBuf, sess`history, sess`exited
    ensures initialOutput == ReaderSpec(settleReads).appended
    ensures sess.exited == ExitsAtStart(ReaderSpec(settleReads), lateReads)
    ensures sess.MatchesHistory()
    ensures sess.Drained() == [initialOutput]
    ensures sess.Appended() == initialOutput + LateBytes(ReaderSpec(settleReads), lateReads)
    ensures sess.outputBuf == LateBytes(ReaderSpec(settleReads), lateReads)
  {
    ghost var run := ReaderSpec(settleReads);
    assert sess.Drained() == [] && sess.Appended() == "";
    var _ := sess.RunReader(settleReads);
    assert sess.outputBuf == "" + run.appended == run.appended;
    assert sess.Appended() == "" + run.appended == run.appended;
    initialOutput := sess.ReadAndClear();
    assert sess.Drained() == [initialOutput];
    ReadsBeforeExitTest(sess, run, lateReads);
    assert sess.Appended() == run.appended + "" + LateBytes(run, lateReads);
  }

  /**
   * The window between the settle drain and the exit test: the reader,
   * unless it has already returned, completes the reads it is offered.
   */
  method ReadsBeforeExitTest(sess: Session, ghost run: ReaderRun, lateReads: seq<ReadResult>)
    requires sess.MatchesHistory() && sess.outputBuf == ""
    requires !sess.done && sess.exited == run.stopped
    requires forall i :: 0 <= i < |lateReads| ==> |lateReads[i].data| <= ReadChunkSize
    modifies sess`outputBuf, sess`history, sess`exited
    ensures sess.MatchesHistory()
    ensures sess.exited == ExitsAtStart(run, lateReads)
    ensures sess.Drained() == old(sess.Drained())
    ensures sess.Appended() == old(sess.Appended()) + LateBytes(run, lateReads)
    ensures sess.outputBuf == LateBytes(run, lateReads)
  {
    if !sess.exited {
      var _ := sess.RunReader(lateReads);
      assert sess.outputBuf == "" + ReaderSpec(lateReads).appended;
    } else {
      assert sess.Appended() + "" == sess.Appended();
    }
  }

  /**
   * interact_session. writeErr and written are the operating system's answer
   * to writing input, and waitReads the reads the reader performs while the handler
   * waits for output.
   */
  method InteractSession(mgr: SessionManager, id: string, input: string,
                         writeErr: Option<string>, written: nat, waitReads: seq<ReadResult>)
    returns (res: ToolResult)
    requires mgr.Valid()
    requires forall i :: 0 <= i < |waitReads| ==> |waitReads[i].data| <= ReadChunkSize
    modifies mgr, if id in mgr.sessions then {mgr.sessions[id]} else {}
    ensures mgr.Valid()
    ensures id !in old(mgr.sessions) ==>
      res == ToolResult("Session not found", true) && mgr.sessions == old(mgr.sessions)
    ensures id in old(mgr.sessions) && old(mgr.sessions[id].exited) ==>
      var s := old(mgr.sessions)[id];
      && res == ToolResult(ExitedText(old(s.outputBuf)), false)
      && mgr.sessions == old(mgr.sessions) - {id}
      && s.outputBuf == "" && s.history == old(s.history) + [Drain]
      && (old(s.MatchesHistory()) ==> s.MatchesHistory() && s.Drained() == old(s.Drained()) + [old(s.outputBuf)])
      && s.Appended() == old(s.Appended())
      && s.done && s.ptmxClosed && s.processKilled == s.hasProcess
      && s.exited && s.sent == old(s.sent)
    ensures id in old(mgr.sessions) && !old(mgr.sessions[id].exited) && input != "" && writeErr.Some? ==>
      var s := old(mgr.sessions)[id];
      && res == ToolResult(WriteErrorText(writeErr.value), true)
      && mgr.sessions == old(mgr.sessions)
      && s.outputBuf == old(s.outputBuf) && s.history == old(s.history)
      && s.sent == old(s.sent) + Delivered(input, written) && !s.exited
    ensures id in old(mgr.sessions) && !old(mgr.sessions[id].exited) && !(input != "" && writeErr.Some?) ==>
      var s := old(mgr.sessions)[id];
      var run := ReaderSpec(waitReads);
      && res == ToolResult(InteractReply(old(s.outputBuf) + run.appended, input), false)
      && mgr.sessions == old(mgr.sessions)
      && s.outputBuf == "" && s.exited == run.stopped
      && (old(s.MatchesHistory()) ==> s.MatchesHistory() && s.Drained() == old(s.Drained()) + [old(s.outputBuf) + run.appended])
      && s.Appended() == old(s.Appended()) + run.appended
      && s.sent == old(s.sent) + input
  {
    var sess, ok := mgr.Get(id);
    if !ok {
      res := ToolResult("Session not found", true);
    } else if sess.exited {
      var output := sess.ReadAndClear();
      mgr.Remove(id);
      res := ToolResult(ExitedText(output), false);
    } else {
      res := Exchange(sess, input, writeErr, written, waitReads);
      assert mgr.sessions == old(mgr.sessions);
    }
  }

  /**
   * The part of interact_session that runs on a live session: write the
   * input if there is any, let the reader run while waiting, then drain.
   */
  method Exchange(sess: Session, input: string, writeErr: Option<string>, written: nat,
                  waitReads: seq<ReadResult>)
    returns (res: ToolResult)
    requires !sess.done && !sess.exited && !sess.ptmxClosed
    requires forall i :: 0 <= i < |waitReads| ==> |waitReads[i].data| <= ReadChunkSize
    modifies sess`outputBuf, sess`history, sess`exited, sess`sent
    ensures input != "" && writeErr.Some? ==>
      && res == ToolResult(WriteErrorText(writeErr.value), true)
      && sess.outputBuf == old(sess.outputBuf) && sess.history == old(sess.history)
      && sess.sent == old(sess.sent) + Delivered(input, written) && !sess.exited
    ensures !(input != "" && writeErr.Some?) ==>
      var run := ReaderSpec(waitReads);
      && res == ToolResult(InteractReply(old(sess.outputBuf) + run.appended, input), false)
      && sess.outputBuf == "" && sess.exited == run.stopped
      && (old(sess.MatchesHistory()) ==>
            sess.MatchesHistory() && sess.Drained() == old(sess.Drained()) + [old(sess.outputBuf) + run.appended])
      && sess.Appended() == old(sess.Appended()) + run.appended
      && sess.sent == old(sess.sent) + input
  {
    if input != "" {
      var err := sess.Write(input, writeErr, written);
      if err.Some? {
        return ToolResult(WriteErrorText(err.value), true);
      }
    } else {
      assert sess.sent + input == sess.sent;
    }
    // The reader runs while the handler waits.
    var _ := sess.RunReader(waitReads);
    var output := sess.ReadAndClear();
    res := ToolResult(InteractReply(output, input), false);
  }

  /** close_session: always succeeds; removing an absent id changes nothing. */
  method CloseSession(mgr: SessionManager, id: string) returns (res: ToolResult)
    requires mgr.Valid()
    modifies mgr, if id in mgr.sessions then {mgr.sessions[id]} else {}
    ensures mgr.Valid()
    ensures res == ToolResult("Session closed", false)
    ensures mgr.sessions == old(mgr.sessions) - {id}
    ensures id !in old(mgr.sessions) ==> mgr.sessions == old(mgr.sessions)
    ensures id in old(mgr.sessions) ==>
      var s := old(mgr.sessions)[id];
      && s.done && s.ptmxClosed && s.processKilled == s.hasProcess
      && s.outputBuf == old(s.outputBuf) && s.exited == old(s.exited)
      && s.history == old(s.history) && s.sent == old(s.sent)
  {
    mgr.Remove(id);
    res := ToolResult("Session closed", false);
  }
}
