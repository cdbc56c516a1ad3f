/**
 * One terminal session: its output buffer, its stop ("done") and "exited"
 * signals, and the background reader that copies terminal output into the
 * buffer. Every method is one atomic step; the reader loop is a sequence
 * of reader steps.
 */
module Sessions {
  import opened Wrappers
  import opened Buffering

  /** Size of the reader's read buffer: no read returns more bytes than this. */
  const ReadChunkSize := 8192

  /** How a terminal read ended: no error, end of stream, or another read error. */
  datatype ReadErr = NoErr | EOF | ReadFailed(msg: string)

  /** The outcome of one terminal read: the bytes read (possibly none) and the error. */
  datatype ReadResult = ReadResult(data: string, err: ReadErr)

  /** What a run of the reader loop did: reads performed, bytes appended, whether it returned. */
  datatype ReaderRun = ReaderRun(consumed: nat, appended: string, stopped: bool)

  /** The bytes carried by a sequence of read outcomes, in order. */
  function Received(outcomes: seq<ReadResult>): string
  {
    if outcomes == [] then "" else Received(outcomes[..|outcomes| - 1]) + outcomes[|outcomes| - 1].data
  }

  /**
   * The reader loop, given the successive outcomes of the terminal reads it
   * is offered while nobody signals "done": it performs them in order,
   * appends whatever bytes each one returns, and returns after the first read
   * that reports an error (end of stream included), never reading again.
   */
  function ReaderSpec(outcomes: seq<ReadResult>): (r: ReaderRun)
    ensures r.consumed <= |outcomes|
    ensures !r.stopped ==> r.consumed == |outcomes|
    decreases |outcomes|
  {
    if outcomes == [] then ReaderRun(0, "", false)
    else
      var t := ReaderSpec(outcomes[..|outcomes| - 1]);
      var last := outcomes[|outcomes| - 1];
      if t.stopped then t
      else ReaderRun(t.consumed + 1, t.appended + last.data, last.err != NoErr)
  }

  /**
   * The reader returns exactly when some read reports an error, and then
   * right after the first such read; what it appended is the bytes of the
   * reads it performed.
   */
  lemma {:induction false} ReaderSpecMeaning(outcomes: seq<ReadResult>)
    ensures var r := ReaderSpec(outcomes);
      && (r.stopped <==> exists i :: 0 <= i < |outcomes| && outcomes[i].err != NoErr)
      && (r.stopped ==> 0 < r.consumed && outcomes[r.consumed - 1].err != NoErr)
      && (forall i :: 0 <= i < r.consumed - 1 ==> outcomes[i].err == NoErr)
      && r.appended == Received(outcomes[..r.consumed])
    decreases |outcomes|
  {
    if outcomes != [] {
      var p := outcomes[..|outcomes| - 1];
      var last := outcomes[|outcomes| - 1];
      ReaderSpecMeaning(p);
      var t := ReaderSpec(p);
      assert p[..t.consumed] == outcomes[..t.consumed];
      if !t.stopped {
        assert outcomes[..t.consumed + 1] == p + [last];
        assert outcomes[..t.consumed + 1][..t.consumed] == p;
      }
    }
  }

  /** One more read offered to a reader that has not returned is performed, and its bytes appended. */
  lemma ReaderSpecStep(outcomes: seq<ReadResult>, k: nat)
    requires k < |outcomes|
    requires !ReaderSpec(outcomes[..k]).stopped
    ensures ReaderSpec(outcomes[..k + 1])
      == ReaderRun(k + 1, ReaderSpec(outcomes[..k]).appended + outcomes[k].data, outcomes[k].err != NoErr)
  {
    assert outcomes[..k + 1][..k] == outcomes[..k];
  }

  /** Once the reader has returned, further reads offered to it change nothing: they are never performed. */
  lemma {:induction false} ReaderStopsForGood(outcomes: seq<ReadResult>, i: nat)
    requires i <= |outcomes|
    requires ReaderSpec(outcomes[..i]).stopped
    ensures ReaderSpec(outcomes) == ReaderSpec(outcomes[..i])
    decreases |outcomes| - i
  {
    if i < |outcomes| {
      var p := outcomes[..|outcomes| - 1];
      assert p[..i] == outcomes[..i];
      ReaderStopsForGood(p, i);
    } else {
      assert outcomes[..i] == outcomes;
    }
  }

  /** The part of input that a write reporting written bytes delivered. */
  function Delivered(input: string, written: nat): (d: string)
    ensures |d| <= |input| && d == input[..|d|]
    ensures written < |input| ==> |d| == written
    ensures written >= |input| ==> d == input
  {
    if written < |input| then input[..written] else input
  }

  lemma ConcatAssoc(x: string, y: string, z: string)
    ensures x + y + z == x + (y + z)
  {
  }

  /** Every append in the history is the non-empty result of one read. */
  ghost predicate WholeReads(h: seq<Event>)
  {
    forall i :: 0 <= i < |h| && h[i].Append? ==> 0 < |h[i].chunk| <= ReadChunkSize
  }

  lemma WholeReadsSnoc(h: seq<Event>, e: Event)
    requires WholeReads(h)
    requires e.Append? ==> 0 < |e.chunk| <= ReadChunkSize
    ensures WholeReads(h + [e])
  {
    assert forall i :: 0 <= i < |h| ==> (h + [e])[i] == h[i];
  }

  class Session {
    const id: string
    /** Whether the command has a running process to kill at teardown. */
    const hasProcess: bool

    var outputBuf: string
    /** The stop signal: closed by teardown, observed by the reader before each read. */
    var done: bool
    /** The exit signal: closed when the reader returns. */
    var exited: bool
    var ptmxClosed: bool
    var processKilled: bool

    /** Every locked step ever taken on the buffer. */
    ghost var history: seq<Event>
    /** Every byte successfully written to the terminal. */
    ghost var sent: string

    /**
     * The buffer is what replaying the history of locked steps leaves, and
     * every append in that history was one whole read.
     */
    ghost predicate MatchesHistory()
      reads this
    {
      && Replay(history).buf == outputBuf
      && WholeReads(history)
    }

    /** Every string drained from the buffer so far, in drain order. */
    ghost function Drained(): seq<string>
      reads this
    {
      Replay(history).drains
    }

    /** Every byte appended to the buffer so far, in append order. */
    ghost function Appended(): string
      reads this
    {
      Flatten(Chunks(history))
    }

    constructor (id: string, hasProcess: bool)
      ensures MatchesHistory()
      ensures this.id == id && this.hasProcess == hasProcess
      ensures outputBuf == "" && !done && !exited && !ptmxClosed && !processKilled
      ensures history == [] && sent == ""
    {
      this.id := id;
      this.hasProcess := hasProcess;
      outputBuf := "";
      done, exited := false, false;
      ptmxClosed, processKilled := false, false;
      history := [];
      sent := "";
    }

    /** No byte appended to this session's buffer is lost, duplicated or reordered by drains. */
    lemma Conserves()
      requires MatchesHistory()
      ensures Flatten(Drained()) + outputBuf == Appended()
    {
      ReplayConserves(history);
    }

    /** The locked append of one whole, non-empty read to the buffer. */
    method Append(chunk: string)
      requires 0 < |chunk| <= ReadChunkSize
      modifies this`outputBuf, this`history
      ensures old(MatchesHistory()) ==> MatchesHistory()
      ensures outputBuf == old(outputBuf) + chunk
      ensures history == old(history) + [Event.Append(chunk)]
      ensures Drained() == old(Drained()) && Appended() == old(Appended()) + chunk
    {
      ReplaySnoc(history, Event.Append(chunk));
      ChunksSnoc(history, Event.Append(chunk));
      FlattenSnoc(Chunks(history), chunk);
      if WholeReads(history) {
        WholeReadsSnoc(history, Event.Append(chunk));
      }
      outputBuf := outputBuf + chunk;
      history := history + [Event.Append(chunk)];
    }

    /**
     * One iteration of the reader loop: if "done" is signalled it returns
     * without reading; otherwise it performs one read, appends the bytes read
     * when there are any, and returns if the read reported an error. Returning
     * closes "exited", which the reader does exactly once.
     */
    method ReaderStep(r: ReadResult) returns (didRead: bool)
      requires !exited
      requires |r.data| <= ReadChunkSize
      modifies this`outputBuf, this`history, this`exited
      ensures old(MatchesHistory()) ==> MatchesHistory()
      ensures didRead == !done
      ensures done ==> exited && outputBuf == old(outputBuf) && history == old(history)
      ensures !done ==> exited == (r.err != NoErr)
      ensures !done ==> outputBuf == old(outputBuf) + r.data
      ensures !done && r.data == "" ==> history == old(history)
      ensures !done && r.data != "" ==> history == old(history) + [Event.Append(r.data)]
      ensures Drained() == old(Drained())
      ensures Appended() == old(Appended()) + (if done then "" else r.data)
    {
      if done {
        didRead := false;
        exited := true;
      } else {
        didRead := true;
        if |r.data| > 0 {
          Append(r.data);
        } else {
          assert outputBuf + r.data == outputBuf;
          assert Appended() + r.data == Appended();
        }
        if r.err != NoErr {
          exited := true;
        }
      }
    }

    /**
     * The reader loop run over the reads the terminal delivers while no
     * teardown happens: it does what ReaderSpec says.
     */
    method RunReader(outcomes: seq<ReadResult>) returns (consumed: nat)
      requires !done && !exited
      requires forall i :: 0 <= i < |outcomes| ==> |outcomes[i].data| <= ReadChunkSize
      modifies this`outputBuf, this`history, this`exited
      ensures old(MatchesHistory()) ==> MatchesHistory()
      ensures consumed == ReaderSpec(outcomes).consumed
      ensures exited == ReaderSpec(outcomes).stopped
      ensures outputBuf == old(outputBuf) + ReaderSpec(outcomes).appended
      ensures Drained() == old(Drained())
      ensures Appended() == old(Appended()) + ReaderSpec(outcomes).appended
    {
      consumed := 0;
      while consumed < |outcomes| && !exited
        invariant consumed <= |outcomes|
        invariant old(MatchesHistory()) ==> MatchesHistory()
        invariant ReaderSpec(outcomes[..consumed]).consumed == consumed
        invariant exited == ReaderSpec(outcomes[..consumed]).stopped
        invariant outputBuf == old(outputBuf) + ReaderSpec(outcomes[..consumed]).appended
        invariant Drained() == old(Drained())
        invariant Appended() == old(Appended()) + ReaderSpec(outcomes[..consumed]).appended
        decreases |outcomes| - consumed
      {
        var r := outcomes[consumed];
        ghost var before := ReaderSpec(outcomes[..consumed]);
        var didRead := ReaderStep(r);
        ConcatAssoc(old(outputBuf), before.appended, r.data);
        ConcatAssoc(old(Appended()), before.appended, r.data);
        ReaderSpecStep(outcomes, consumed);
        consumed := consumed + 1;
      }
      if consumed == |outcomes| {
        assert outcomes[..consumed] == outcomes;
      } else {
        ReaderStopsForGood(outcomes, consumed);
      }
    }

    /** Atomically returns the whole buffer and empties it. */
    method ReadAndClear() returns (out: string)
      modifies this`outputBuf, this`history
      ensures old(MatchesHistory()) ==> MatchesHistory()
      ensures out == old(outputBuf) && outputBuf == ""
      ensures history == old(history) + [Drain]
      ensures old(MatchesHistory()) ==> Drained() == old(Drained()) + [out]
      ensures Appended() == old(Appended())
    {
      ReplaySnoc(history, Drain);
      ChunksSnoc(history, Drain);
      assert Chunks(history) + [] == Chunks(history);
      if WholeReads(history) {
        WholeReadsSnoc(history, Drain);
      }
      out := outputBuf;
      outputBuf := "";
      history := history + [Drain];
    }

    /**
     * Writes input to the terminal. The operating system's answer is osErr
     * and the count of bytes it wrote; a failed write may have delivered a
     * prefix of the input, and on a closed terminal it fails delivering
     * nothing.
     */
    method Write(input: string, osErr: Option<string>, written: nat) returns (err: Option<string>)
      requires ptmxClosed ==> osErr.Some? && written == 0
      modifies this`sent
      ensures err == osErr
      ensures osErr.None? ==> sent == old(sent) + input
      ensures osErr.Some? ==> sent == old(sent) + Delivered(input, written)
    {
      err := osErr;
      if osErr.None? {
        sent := sent + input;
      } else {
        sent := sent + Delivered(input, written);
      }
    }
  }
}
