/**
 * The inbound stream de-framer of BleService.handleIncomingData as pure
 * functions: one pass of its loop is Step, running the loop to its return
 * is Deframe. The device marks each frame with '>' (0x3E), then a 16-bit
 * little-endian length, then the payload.
 */
module Deframer {
  import opened Bytes
  import opened BleProtocol

  /** A marker-less buffer longer than this is thrown away. */
  const RX_LIMIT: nat := 256

  /** `indexOf`: the first position of x in s, or -1. */
  function IndexOf<T(==)>(s: seq<T>, x: T): (i: int)
    ensures -1 <= i < |s|
    ensures i == -1 <==> x !in s
    ensures 0 <= i ==> s[i] == x
  {
    if |s| == 0 then -1
    else if s[0] == x then 0
    else
      var j := IndexOf(s[1..], x);
      if j == -1 then -1 else j + 1
  }

  /** Nothing before the position found is x. */
  lemma {:induction false} IndexOfFirst<T>(s: seq<T>, x: T)
    ensures forall j :: 0 <= j < IndexOf(s, x) ==> s[j] != x
  {
    if |s| > 0 && s[0] != x {
      IndexOfFirst(s[1..], x);
      if IndexOf(s, x) != -1 {
        forall j | 1 <= j < IndexOf(s, x)
          ensures s[j] != x
        {
          assert s[j] == s[1..][j - 1];
        }
      }
    }
  }

  /** The first occurrence is characterised by its two properties. */
  lemma IndexOfIs<T>(s: seq<T>, x: T, k: nat)
    requires k < |s| && s[k] == x
    requires forall j :: 0 <= j < k ==> s[j] != x
    ensures IndexOf(s, x) == k
  {
    IndexOfFirst(s, x);
  }

  lemma IndexOfAppend<T>(a: seq<T>, b: seq<T>, x: T)
    ensures x in a ==> IndexOf(a + b, x) == IndexOf(a, x)
    ensures x !in a ==> IndexOf(a + b, x) == if x in b then |a| + IndexOf(b, x) else -1
  {
    if x in a {
      IndexOfPrefix(a, b, x);
    } else if x in b {
      IndexOfSuffix(a, b, x);
    } else {
      assert x !in a + b;
    }
  }

  /** A marker in the first part is found there. */
  lemma IndexOfPrefix<T>(a: seq<T>, b: seq<T>, x: T)
    requires x in a
    ensures IndexOf(a + b, x) == IndexOf(a, x)
  {
    var k := IndexOf(a, x);
    IndexOfFirst(a, x);
    assert (a + b)[k] == x;
    forall j | 0 <= j < k
      ensures (a + b)[j] != x
    {
      assert (a + b)[j] == a[j];
    }
    IndexOfIs(a + b, x, k);
  }

  /** A marker only in the second part is found there, shifted by the first. */
  lemma IndexOfSuffix<T>(a: seq<T>, b: seq<T>, x: T)
    requires x !in a && x in b
    ensures IndexOf(a + b, x) == |a| + IndexOf(b, x)
  {
    var k := IndexOf(b, x);
    IndexOfFirst(b, x);
    assert (a + b)[|a| + k] == x;
    forall j | 0 <= j < |a| + k
      ensures (a + b)[j] != x
    {
      if j < |a| {
        assert (a + b)[j] == a[j];
      } else {
        assert (a + b)[j] == b[j - |a|];
      }
    }
    IndexOfIs(a + b, x, |a| + k);
  }

  /** The outcome of one pass of the loop. */
  datatype Scan =
    | Wait(buffer: seq<byte>)                   // return, leaving `buffer` in rxBuffer
    | Emit(payload: seq<byte>, rest: seq<byte>) // processFrame(payload), continue on `rest`

  /** One pass of the `while (true)` loop over rxBuffer. */
  function Step(buf: seq<byte>): (r: Scan)
    ensures r.Emit? ==> |r.rest| + HEADER_SIZE + |r.payload| <= |buf|
    ensures r.Wait? ==> |r.buffer| <= |buf|
  {
    var idx := IndexOf(buf, FRAME_START_IN);
    if idx == -1 then Wait(if |buf| > RX_LIMIT then [] else buf)
    else StepAtMarker(buf[idx..])
  }

  /** The rest of the pass once rxBuffer has been sliced to its marker. */
  function StepAtMarker(b: seq<byte>): (r: Scan)
    ensures r.Emit? ==> |r.rest| + HEADER_SIZE + |r.payload| <= |b|
    ensures r.Wait? ==> r.buffer == b
  {
    if |b| < HEADER_SIZE then Wait(b)
    else
      // b[1] | (b[2] << 8): the two bytes occupy disjoint bits
      var len := HeaderLength(b);
      if |b| < HEADER_SIZE + len then Wait(b)
      else Emit(b[HEADER_SIZE..HEADER_SIZE + len], b[HEADER_SIZE + len..])
  }

  /** The payloads handed to processFrame, and what is left in rxBuffer. */
  datatype Drained = Drained(payloads: seq<seq<byte>>, rest: seq<byte>)

  /** The loop run until it returns. */
  function Deframe(buf: seq<byte>): (r: Drained)
    ensures |r.rest| <= |buf|
    ensures |r.payloads| <= |buf| / HEADER_SIZE
    decreases |buf|
  {
    match Step(buf)
    case Wait(b) => Drained([], b)
    case Emit(p, rest) =>
      var d := Deframe(rest);
      Drained([p] + d.payloads, d.rest)
  }

  /** A complete frame at the front of the buffer is delivered first. */
  lemma DeframeFrameFirst(buf: seq<byte>)
    requires |buf| >= HEADER_SIZE && buf[0] == FRAME_START_IN
    requires |buf| >= HEADER_SIZE + HeaderLength(buf)
    ensures var len := HeaderLength(buf);
      var d := Deframe(buf[HEADER_SIZE + len..]);
      Deframe(buf) == Drained([buf[HEADER_SIZE..HEADER_SIZE + len]] + d.payloads, d.rest)
  {
    assert IndexOf(buf, FRAME_START_IN) == 0;
    assert buf[0..] == buf;
  }

  /** Bytes before the first inbound marker never change what is drained. */
  lemma DeframeFromMarker(buf: seq<byte>)
    requires FRAME_START_IN in buf
    ensures Deframe(buf) == Deframe(buf[IndexOf(buf, FRAME_START_IN)..])
  {
    var k := IndexOf(buf, FRAME_START_IN);
    var b := buf[k..];
    IndexOfIs(b, FRAME_START_IN, 0);
    assert b[0..] == b;
    StepFromMarker(buf);
  }

  lemma EmptyPrefix<T>(xs: seq<T>)
    ensures [] + xs == xs
  {
  }

  /** The loop's bookkeeping across one pass that hands a frame to processFrame. */
  lemma EmitAccounting(done: seq<seq<byte>>, buf: seq<byte>, all: Drained)
    requires Step(buf).Emit?
    requires done + Deframe(buf).payloads == all.payloads
    requires Deframe(buf).rest == all.rest
    ensures var s := Step(buf);
      && done + [s.payload] + Deframe(s.rest).payloads == all.payloads
      && Deframe(s.rest).rest == all.rest
  {
    var s := Step(buf);
    var d := Deframe(s.rest);
    assert done + [s.payload] + d.payloads == done + ([s.payload] + d.payloads);
  }

  /** The loop's bookkeeping across the pass that returns: everything has been delivered. */
  lemma WaitAccounting(done: seq<seq<byte>>, buf: seq<byte>, all: Drained)
    requires Step(buf).Wait?
    requires done + Deframe(buf).payloads == all.payloads
    requires Deframe(buf).rest == all.rest
    ensures done == all.payloads && Step(buf).buffer == all.rest
  {
    assert Deframe(buf).payloads == [];
    assert done + [] == done;
  }

  /** An incomplete frame at the front of the buffer: the loop returns. */
  lemma DeframeIncompleteFirst(buf: seq<byte>)
    requires |buf| > 0 && buf[0] == FRAME_START_IN
    requires |buf| < HEADER_SIZE || |buf| < HEADER_SIZE + HeaderLength(buf)
    ensures Deframe(buf) == Drained([], buf)
  {
    assert IndexOf(buf, FRAME_START_IN) == 0;
    assert buf[0..] == buf;
  }

  /** The buffer from its first marker on; empty if it has none. */
  function FromMarker(buf: seq<byte>): seq<byte>
  {
    var i := IndexOf(buf, FRAME_START_IN);
    if i == -1 then [] else buf[i..]
  }

  /** The loop only ever looks at the buffer from its first marker on. */
  lemma {:induction false} StepFromMarker(buf: seq<byte>)
    requires FRAME_START_IN in buf
    ensures Step(buf) == Step(FromMarker(buf))
  {
    var t := FromMarker(buf);
    assert IndexOf(t, FRAME_START_IN) == 0;
    assert t[0..] == t;
  }

  /** Bytes before the first marker never reach processFrame. */
  lemma {:induction false} PayloadsFromMarker(buf: seq<byte>)
    ensures Deframe(buf).payloads == Deframe(FromMarker(buf)).payloads
  {
    if FRAME_START_IN in buf {
      StepFromMarker(buf);
    } else {
      assert Step(buf).Wait?;
      assert Step([]) == Wait([]);
    }
  }

  /**
   * What rxBuffer may hold when handleIncomingData returns: nothing, at
   * most RX_LIMIT bytes without a marker, or the start of a frame that is
   * not yet complete.
   */
  predicate Pending(rest: seq<byte>)
  {
    || rest == []
    || (FRAME_START_IN !in rest && |rest| <= RX_LIMIT)
    || (rest[0] == FRAME_START_IN
        && (|rest| < HEADER_SIZE || |rest| < HEADER_SIZE + HeaderLength(rest)))
  }

  lemma {:induction false} RestIsPending(buf: seq<byte>)
    ensures Pending(Deframe(buf).rest)
    decreases |buf|
  {
    match Step(buf)
    case Wait(b) =>
      var idx := IndexOf(buf, FRAME_START_IN);
      if idx != -1 {
        assert b == buf[idx..] && b[0] == FRAME_START_IN;
      }
    case Emit(_, rest) => RestIsPending(rest);
  }

  /** A buffer left by a previous call holds no complete frame. */
  lemma PendingIsSettled(buf: seq<byte>)
    requires Pending(buf)
    ensures Deframe(buf) == Drained([], buf)
  {
    if buf != [] && FRAME_START_IN in buf {
      assert buf[0] == FRAME_START_IN;
      assert IndexOf(buf, FRAME_START_IN) == 0;
      assert buf[0..] == buf;
    }
  }

  /**
   * A complete frame is delivered as one payload, exactly HEADER_SIZE + len
   * bytes are consumed, and the bytes after it are decoded as if they had
   * arrived alone.
   */
  lemma {:induction false} FrameThenMore(p: seq<byte>, more: seq<byte>)
    requires |p| < 0x1_0000
    ensures Deframe(Framed(FRAME_START_IN, p) + more)
         == Drained([p] + Deframe(more).payloads, Deframe(more).rest)
  {
    var f := Framed(FRAME_START_IN, p);
    var buf := f + more;
    FramedLayout(FRAME_START_IN, p);
    assert buf[0] == FRAME_START_IN;
    assert IndexOf(buf, FRAME_START_IN) == 0;
    assert buf[0..] == buf;
    assert HeaderLength(buf) == |p|;
    assert buf[HEADER_SIZE..HEADER_SIZE + |p|] == p;
    assert buf[HEADER_SIZE + |p|..] == more;
  }

  /** `[0x3E, lo, hi] ++ p` with a matching length: one payload, nothing left. */
  lemma {:induction false} SingleFrame(lo: byte, hi: byte, p: seq<byte>)
    requires |p| == lo + 0x100 * hi
    ensures Deframe([FRAME_START_IN, lo, hi] + p) == Drained([p], [])
  {
    var buf := [FRAME_START_IN, lo, hi] + p;
    assert HeaderLength(buf) == |p|;
    DeframeFrameFirst(buf);
    assert buf[HEADER_SIZE..HEADER_SIZE + |p|] == p;
    assert buf[HEADER_SIZE + |p|..] == [];
    assert Deframe([]) == Drained([], []);
  }

  /** Until all HEADER_SIZE + len bytes are buffered nothing is delivered or dropped. */
  lemma {:induction false} PartialFrameWaits(p: seq<byte>, k: nat)
    requires |p| < 0x1_0000
    requires k < HEADER_SIZE + |p|
    ensures Deframe(Framed(FRAME_START_IN, p)[..k]) == Drained([], Framed(FRAME_START_IN, p)[..k])
  {
    var f := Framed(FRAME_START_IN, p);
    FramedLayout(FRAME_START_IN, p);
    var b := f[..k];
    if k > 0 {
      assert b[0] == FRAME_START_IN;
      assert IndexOf(b, FRAME_START_IN) == 0;
      assert b[0..] == b;
      if k >= HEADER_SIZE {
        assert HeaderLength(b) == HeaderLength(f);
      }
    }
  }

  /** Marker-free junk in front of a buffer changes nothing. */
  lemma {:induction false} JunkDropped(junk: seq<byte>, buf: seq<byte>)
    requires FRAME_START_IN !in junk
    requires FRAME_START_IN in buf
    ensures Deframe(junk + buf) == Deframe(buf)
  {
    var whole := junk + buf;
    var i := IndexOf(buf, FRAME_START_IN);
    assert IndexOf(whole, FRAME_START_IN) == |junk| + i by {
      IndexOfAppend(junk, buf, FRAME_START_IN);
    }
    SkipPrefix(junk, buf, i);
    SameFromMarker(whole, buf);
  }

  /** Two buffers that agree from their first marker on drain alike. */
  lemma SameFromMarker(x: seq<byte>, y: seq<byte>)
    requires FRAME_START_IN in x && FRAME_START_IN in y
    requires x[IndexOf(x, FRAME_START_IN)..] == y[IndexOf(y, FRAME_START_IN)..]
    ensures Deframe(x) == Deframe(y)
  {
    DeframeFromMarker(x);
    DeframeFromMarker(y);
  }

  /** Slicing past a whole prefix slices the second part. */
  lemma SkipPrefix<T>(a: seq<T>, b: seq<T>, i: nat)
    requires i <= |b|
    ensures (a + b)[|a| + i..] == b[i..]
  {
  }

  /** A complete frame at the marker stays complete when bytes follow. */
  lemma StepAtMarkerAppend(b: seq<byte>, c: seq<byte>)
    requires StepAtMarker(b).Emit?
    ensures StepAtMarker(b + c) == Emit(StepAtMarker(b).payload, StepAtMarker(b).rest + c)
  {
    var len := HeaderLength(b);
    assert HeaderLength(b + c) == len;
    assert (b + c)[HEADER_SIZE..HEADER_SIZE + len] == b[HEADER_SIZE..HEADER_SIZE + len];
    assert (b + c)[HEADER_SIZE + len..] == b[HEADER_SIZE + len..] + c;
  }

  /** A pass that finds a marker works on the buffer from that marker on. */
  lemma StepFound(y: seq<byte>, i: int)
    requires i == IndexOf(y, FRAME_START_IN) && i >= 0
    ensures Step(y) == StepAtMarker(y[i..])
  {
  }

  /** Only a buffer holding a marker can deliver a frame. */
  lemma EmitHasMarker(y: seq<byte>)
    requires Step(y).Emit?
    ensures FRAME_START_IN in y
  {
  }

  lemma SliceOfAppend<T>(x: seq<T>, c: seq<T>, i: nat)
    requires i <= |x|
    ensures (x + c)[i..] == x[i..] + c
  {
  }

  /** A complete frame in x is a complete frame in x + c. */
  lemma StepEmitAppend(x: seq<byte>, c: seq<byte>)
    requires Step(x).Emit?
    ensures Step(x + c) == Emit(Step(x).payload, Step(x).rest + c)
  {
    EmitHasMarker(x);
    var i := IndexOf(x, FRAME_START_IN);
    StepFound(x, i);
    StepFoundAppend(x, c, i);
  }

  lemma StepFoundAppend(x: seq<byte>, c: seq<byte>, i: int)
    requires i == IndexOf(x, FRAME_START_IN) && i >= 0
    requires StepAtMarker(x[i..]).Emit?
    ensures Step(x + c) == Emit(StepAtMarker(x[i..]).payload, StepAtMarker(x[i..]).rest + c)
  {
    IndexOfPrefix(x, c, FRAME_START_IN);
    StepFound(x + c, i);
    SliceOfAppend(x, c, i);
    StepAtMarkerAppend(x[i..], c);
  }

  /** Appending to a buffer without a marker: only the new bytes matter. */
  lemma FromMarkerAfterJunk(x: seq<byte>, c: seq<byte>)
    requires FRAME_START_IN !in x
    ensures FromMarker(x + c) == FromMarker(c)
  {
    IndexOfAppend(x, c, FRAME_START_IN);
    if FRAME_START_IN in c {
      var k := IndexOf(c, FRAME_START_IN);
      assert (x + c)[|x| + k..] == c[k..];
    }
  }

  /** A buffer the loop returns on keeps what matters from x. */
  lemma WaitAppend(x: seq<byte>, c: seq<byte>)
    requires Step(x).Wait?
    ensures FromMarker(x + c) == FromMarker(Step(x).buffer + c)
  {
    var b := Step(x).buffer;
    if FRAME_START_IN in x {
      var i := IndexOf(x, FRAME_START_IN);
      StepFound(x, i);
      assert b == x[i..];
      IndexOfPrefix(x, c, FRAME_START_IN);
      SliceOfAppend(x, c, i);
      assert FromMarker(x + c) == b + c;
      MarkerFirst(b + c);
    } else {
      assert b == [] || b == x;
      FromMarkerAfterJunk(x, c);
      FromMarkerAfterJunk(b, c);
    }
  }

  /** A buffer that starts with the marker is kept whole. */
  lemma MarkerFirst(y: seq<byte>)
    requires |y| > 0 && y[0] == FRAME_START_IN
    ensures FromMarker(y) == y
  {
    IndexOfIs(y, FRAME_START_IN, 0);
    assert y[0..] == y;
  }

  /**
   * Delivering x and then c yields the payloads of delivering x + c at
   * once; the bytes left over may differ only in marker-less junk.
   */
  lemma {:induction false} SplitDelivery(x: seq<byte>, c: seq<byte>)
    ensures Deframe(x + c).payloads
         == Deframe(x).payloads + Deframe(Deframe(x).rest + c).payloads
    decreases |x|
  {
    match Step(x)
    case Emit(p, r) =>
      StepEmitAppend(x, c);
      SplitDelivery(r, c);
    case Wait(b) =>
      WaitAppend(x, c);
      PayloadsFromMarker(x + c);
      PayloadsFromMarker(b + c);
  }

  lemma AppendAssoc(a: seq<byte>, b: seq<byte>, c: seq<byte>)
    ensures a + (b + c) == (a + b) + c
  {
  }

  function Concat(chunks: seq<seq<byte>>): seq<byte>
  {
    if chunks == [] then [] else chunks[0] + Concat(chunks[1..])
  }

  /** Successive handleIncomingData calls, one per notification chunk. */
  function Feed(buf: seq<byte>, chunks: seq<seq<byte>>): Drained
    decreases |chunks|
  {
    if chunks == [] then Drained([], buf)
    else
      var d := Deframe(buf + chunks[0]);
      var e := Feed(d.rest, chunks[1..]);
      Drained(d.payloads + e.payloads, e.rest)
  }

  /**
   * However the byte stream is split into notifications, processFrame sees
   * the same payloads in the same order.
   */
  lemma {:induction false} ChunkingIrrelevant(buf: seq<byte>, chunks: seq<seq<byte>>)
    requires Pending(buf)
    ensures Feed(buf, chunks).payloads == Deframe(buf + Concat(chunks)).payloads
    decreases |chunks|
  {
    if chunks == [] {
      assert buf + [] == buf;
      PendingIsSettled(buf);
    } else {
      var x := buf + chunks[0];
      var tail := Concat(chunks[1..]);
      var d := Deframe(x);
      RestIsPending(x);
      ChunkingIrrelevant(d.rest, chunks[1..]);
      SplitDelivery(x, tail);
      assert Concat(chunks) == chunks[0] + tail;
      AppendAssoc(buf, chunks[0], tail);
      calc {
        Feed(buf, chunks).payloads;
        d.payloads + Feed(d.rest, chunks[1..]).payloads;
        d.payloads + Deframe(d.rest + tail).payloads;
        Deframe(x + tail).payloads;
      }
    }
  }

  /** From an empty rxBuffer, the split of the stream does not matter. */
  lemma StreamSplitIrrelevant(chunks: seq<seq<byte>>)
    ensures Feed([], chunks).payloads == Deframe(Concat(chunks)).payloads
  {
    ChunkingIrrelevant([], chunks);
    assert [] + Concat(chunks) == Concat(chunks);
  }
}
