/**
 * Reference line framing of a byte stream, one byte at a time: every line
 * feed closes the line in progress. The receiver worker, which frames whole
 * chunks instead, is proved to agree with it.
 */
module Framing {
  import opened Bytes

  /** The test the receiver applies to its accumulator: non-empty and ending in a line feed. */
  predicate EndsWithLF(buf: seq<byte>)
  {
    |buf| >= 1 && buf[|buf| - 1] == LF
  }

  /** A complete line: ends in a line feed and holds no other. */
  predicate IsLine(line: seq<byte>)
  {
    EndsWithLF(line) && LF !in line[..|line| - 1]
  }

  /** Every buffer of `lines` is a complete line. */
  predicate AllLines(lines: seq<seq<byte>>)
  {
    forall k :: 0 <= k < |lines| ==> IsLine(lines[k])
  }

  /**
   * What one `readline` of the serial connection returns: bytes up to and
   * including the first line feed, or fewer when the read timed out; so a
   * line feed can only be its last byte.
   */
  predicate IsReadlineChunk(chunk: seq<byte>)
  {
    forall i :: 0 <= i < |chunk| - 1 ==> chunk[i] != LF
  }

  /** Every chunk of `chunks` is one readline can return. */
  predicate AllReadlineChunks(chunks: seq<seq<byte>>)
  {
    forall k :: 0 <= k < |chunks| ==> IsReadlineChunk(chunks[k])
  }

  /** The complete lines seen so far and the bytes of the line in progress. */
  datatype Frames = Frames(lines: seq<seq<byte>>, pending: seq<byte>)

  /** The framing of the empty stream. */
  const NoFrames := Frames([], [])

  /** One byte arrives: a line feed completes the pending line, any other byte extends it. */
  function Feed(f: Frames, b: byte): Frames
  {
    if b == LF then Frames(f.lines + [f.pending + [b]], [])
    else Frames(f.lines, f.pending + [b])
  }

  /** The bytes of `s` arrive in order. */
  function FeedAll(f: Frames, s: seq<byte>): Frames
    decreases |s|
  {
    if s == [] then f else FeedAll(Feed(f, s[0]), s[1..])
  }

  /** The framing of a whole stream. */
  function Split(s: seq<byte>): Frames
  {
    FeedAll(NoFrames, s)
  }

  /** Feeding two pieces one after the other is feeding their concatenation. */
  lemma {:induction false} FeedAllAppend(f: Frames, s: seq<byte>, t: seq<byte>)
    ensures FeedAll(f, s + t) == FeedAll(FeedAll(f, s), t)
    decreases |s|
  {
    if s == [] {
      assert s + t == t;
    } else {
      assert (s + t)[0] == s[0];
      assert (s + t)[1..] == s[1..] + t;
      FeedAllAppend(Feed(f, s[0]), s[1..], t);
    }
  }

  /**
   * Lines already complete are never touched again: feeding more bytes only
   * appends lines, and what it appends depends only on the pending bytes.
   */
  lemma {:induction false} FeedAllKeepsLines(lines: seq<seq<byte>>, pending: seq<byte>, t: seq<byte>)
    ensures FeedAll(Frames(lines, pending), t)
         == Frames(lines + FeedAll(Frames([], pending), t).lines, FeedAll(Frames([], pending), t).pending)
    decreases |t|
  {
    if t == [] {
      assert lines + [] == lines;
    } else {
      var g := Feed(Frames([], pending), t[0]);
      assert Feed(Frames(lines, pending), t[0]) == Frames(lines + g.lines, g.pending);
      FeedAllKeepsLines(lines + g.lines, g.pending, t[1..]);
      FeedAllKeepsLines(g.lines, g.pending, t[1..]);
      var h := FeedAll(Frames([], g.pending), t[1..]);
      assert (lines + g.lines) + h.lines == lines + (g.lines + h.lines);
    }
  }

  /** A pending line with a line feed appended is a complete line. */
  lemma CloseLine(pending: seq<byte>)
    requires LF !in pending
    ensures IsLine(pending + [LF])
  {
  }

  /** Appending one complete line to complete lines gives complete lines. */
  lemma AllLinesAppend(lines: seq<seq<byte>>, line: seq<byte>)
    requires AllLines(lines) && IsLine(line)
    ensures AllLines(lines + [line])
  {
  }

  /**
   * `f` is a correct framing of the bytes `consumed`: lines and pending
   * bytes together are exactly those bytes, every line is complete and no
   * line feed is pending.
   */
  ghost predicate Sound(f: Frames, consumed: seq<byte>)
  {
    Concat(f.lines) + f.pending == consumed && AllLines(f.lines) && LF !in f.pending
  }

  /** Feeding bytes keeps the framing sound: no byte lost or duplicated, only complete lines, no line feed pending. */
  lemma {:induction false} FeedAllSound(f: Frames, consumed: seq<byte>, t: seq<byte>)
    requires Sound(f, consumed)
    ensures Sound(FeedAll(f, t), consumed + t)
    decreases |t|
  {
    if t == [] {
      assert consumed + t == consumed;
    } else {
      var b := t[0];
      var g := Feed(f, b);
      if b == LF {
        ConcatAppend(f.lines, f.pending + [b]);
        CloseLine(f.pending);
        AllLinesAppend(f.lines, f.pending + [b]);
        assert Concat(g.lines) + g.pending == consumed + [b];
      } else {
        assert Concat(g.lines) + g.pending == (Concat(f.lines) + f.pending) + [b];
        assert LF !in f.pending + [b];
      }
      assert Sound(g, consumed + [b]);
      FeedAllSound(g, consumed + [b], t[1..]);
      assert (consumed + [b]) + t[1..] == consumed + t;
    }
  }

  /**
   * The framing of any stream loses and duplicates no byte: its lines
   * followed by its pending bytes are the stream. Every line is complete and
   * the pending bytes hold no line feed.
   */
  lemma SplitSound(s: seq<byte>)
    ensures Concat(Split(s).lines) + Split(s).pending == s
    ensures AllLines(Split(s).lines)
    ensures LF !in Split(s).pending
  {
    assert Sound(NoFrames, []);
    FeedAllSound(NoFrames, [], s);
    assert [] + s == s;
  }

  /** Framing is incremental: the framing of `s + t` continues the framing of `s` with `t`. */
  lemma SplitAppend(s: seq<byte>, t: seq<byte>)
    ensures Split(s + t).lines == Split(s).lines + FeedAll(Frames([], Split(s).pending), t).lines
    ensures Split(s + t).pending == FeedAll(Frames([], Split(s).pending), t).pending
  {
    FeedAllAppend(NoFrames, s, t);
    FeedAllKeepsLines(Split(s).lines, Split(s).pending, t);
  }

  /** Bytes without a line feed only extend the pending line. */
  lemma {:induction false} FeedAllNoLF(f: Frames, t: seq<byte>)
    requires LF !in t
    ensures FeedAll(f, t) == Frames(f.lines, f.pending + t)
    decreases |t|
  {
    if t == [] {
      assert f.pending + t == f.pending;
    } else {
      assert t[0] != LF && LF !in t[1..];
      FeedAllNoLF(Feed(f, t[0]), t[1..]);
      assert (f.pending + [t[0]]) + t[1..] == f.pending + t;
    }
  }

  /**
   * A readline chunk arriving on a pending line yields exactly one complete
   * line, pending bytes and chunk together, when the chunk ends in a line
   * feed, and otherwise no line at all.
   */
  lemma FeedReadlineChunk(pending: seq<byte>, chunk: seq<byte>)
    requires IsReadlineChunk(chunk)
    ensures EndsWithLF(pending + chunk) && chunk != [] ==>
      FeedAll(Frames([], pending), chunk) == Frames([pending + chunk], [])
    ensures !EndsWithLF(pending + chunk) || chunk == [] ==>
      FeedAll(Frames([], pending), chunk) == Frames([], pending + chunk)
  {
    if chunk == [] {
      assert pending + chunk == pending;
    } else {
      var n := |chunk| - 1;
      var body := chunk[..n];
      assert LF !in body by {
        forall i | 0 <= i < |body| ensures body[i] != LF {
          assert body[i] == chunk[i];
        }
      }
      assert chunk == body + [chunk[n]];
      FeedAllAppend(Frames([], pending), body, [chunk[n]]);
      FeedAllNoLF(Frames([], pending), body);
      assert (pending + body) + [chunk[n]] == pending + chunk;
      assert (pending + chunk)[|pending + chunk| - 1] == chunk[n];
    }
  }
}
