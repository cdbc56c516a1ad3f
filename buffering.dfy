/**
 * The output buffer of one session, seen as a history of atomic steps taken
 * under the buffer lock: the reader appends a chunk, a handler drains the
 * whole buffer. Any interleaving of reader and handler is one such history.
 */
module Buffering {

  /** One locked step on the buffer. */
  datatype Event = Append(chunk: string) | Drain

  /** What a history has produced: every drained string in drain order, and what is left. */
  datatype Trace = Trace(drains: seq<string>, buf: string)

  /** The concatenation of a sequence of strings, in order. */
  function Flatten(ss: seq<string>): string
  {
    if ss == [] then "" else Flatten(ss[..|ss| - 1]) + ss[|ss| - 1]
  }

  /** The chunks a history appends, in order. */
  function Chunks(h: seq<Event>): seq<string>
  {
    if h == [] then []
    else Chunks(h[..|h| - 1]) + (if h[|h| - 1].Append? then [h[|h| - 1].chunk] else [])
  }

  /** The state of the buffer after a history, starting from the empty buffer. */
  function Replay(h: seq<Event>): Trace
  {
    if h == [] then Trace([], "")
    else
      var t := Replay(h[..|h| - 1]);
      match h[|h| - 1]
      case Append(c) => Trace(t.drains, t.buf + c)
      case Drain => Trace(t.drains + [t.buf], "")
  }

  lemma FlattenSnoc(ss: seq<string>, s: string)
    ensures Flatten(ss + [s]) == Flatten(ss) + s
  {
    assert (ss + [s])[..|ss|] == ss;
  }

  lemma ChunksSnoc(h: seq<Event>, e: Event)
    ensures Chunks(h + [e]) == Chunks(h) + (if e.Append? then [e.chunk] else [])
  {
    assert (h + [e])[..|h|] == h;
  }

  /**
   * One more locked step: an append extends the buffer by its chunk and
   * leaves the drains alone; a drain returns the whole buffer and leaves
   * it empty.
   */
  lemma ReplaySnoc(h: seq<Event>, e: Event)
    ensures Replay(h + [e]) == match e
      case Append(c) => Trace(Replay(h).drains, Replay(h).buf + c)
      case Drain => Trace(Replay(h).drains + [Replay(h).buf], "")
  {
    assert (h + [e])[..|h|] == h;
  }

  /**
   * No byte is lost, duplicated or reordered: the drained strings in drain
   * order, followed by what is still buffered, are exactly the appended
   * chunks in append order.
   */
  lemma {:induction false} ReplayConserves(h: seq<Event>)
    ensures Flatten(Replay(h).drains) + Replay(h).buf == Flatten(Chunks(h))
  {
    if h != [] {
      var p := h[..|h| - 1];
      var e := h[|h| - 1];
      assert h == p + [e];
      ReplayConserves(p);
      ChunksSnoc(p, e);
      ReplaySnoc(p, e);
      match e {
        case Append(c) =>
          FlattenSnoc(Chunks(p), c);
        case Drain =>
          FlattenSnoc(Replay(p).drains, Replay(p).buf);
          assert Chunks(h) == Chunks(p);
          assert Replay(h).buf + "" == Replay(h).buf;
          assert Flatten(Replay(h).drains) + Replay(h).buf == Flatten(Replay(p).drains) + Replay(p).buf;
      }
    }
  }

  /** Two drains with no append in between: the second returns "". */
  lemma {:induction false} SecondDrainEmpty(h: seq<Event>)
    ensures var t := Replay(h + [Drain, Drain]);
      |t.drains| >= 1 && t.drains[|t.drains| - 1] == ""
  {
    ReplaySnoc(h, Drain);
    assert h + [Drain, Drain] == (h + [Drain]) + [Drain];
    ReplaySnoc(h + [Drain], Drain);
  }

  /**
   * What a drain returns is exactly the bytes appended since the previous
   * drain: whole chunks only, never part of one.
   */
  lemma {:induction false} DrainReturnsAppendsSince(h: seq<Event>, chunks: seq<string>)
    ensures Replay(h + [Drain] + ChunkEvents(chunks) + [Drain]).drains
      == Replay(h).drains + [Replay(h).buf, Flatten(chunks)]
  {
    var h1 := h + [Drain];
    ReplaySnoc(h, Drain);
    AppendsExtendBuffer(h1, chunks);
    ReplaySnoc(h1 + ChunkEvents(chunks), Drain);
    assert Replay(h1).buf + Flatten(chunks) == Flatten(chunks);
  }

  /** The append events of a sequence of chunks. */
  function ChunkEvents(chunks: seq<string>): (es: seq<Event>)
    ensures |es| == |chunks|
    ensures forall i :: 0 <= i < |es| ==> es[i] == Append(chunks[i])
  {
    if chunks == [] then [] else ChunkEvents(chunks[..|chunks| - 1]) + [Append(chunks[|chunks| - 1])]
  }

  /** Appends leave the drains alone and extend the buffer by their chunks. */
  lemma {:induction false} AppendsExtendBuffer(h: seq<Event>, chunks: seq<string>)
    ensures Replay(h + ChunkEvents(chunks)).drains == Replay(h).drains
    ensures Replay(h + ChunkEvents(chunks)).buf == Replay(h).buf + Flatten(chunks)
    decreases |chunks|
  {
    if chunks != [] {
      var p := chunks[..|chunks| - 1];
      var c := chunks[|chunks| - 1];
      AppendsExtendBuffer(h, p);
      assert ChunkEvents(chunks) == ChunkEvents(p) + [Append(c)];
      assert h + ChunkEvents(chunks) == (h + ChunkEvents(p)) + [Append(c)];
      ReplaySnoc(h + ChunkEvents(p), Append(c));
      assert chunks == p + [c];
      FlattenSnoc(p, c);
    } else {
      assert h + ChunkEvents(chunks) == h;
    }
  }
}
