/**
 * The stream framer (PacketBuffer): it turns arbitrarily chunked bytes into
 * an ordered queue of complete packets, carrying at most one unfinished
 * packet and the exact number of bytes that packet still needs.
 */
module PacketBuffers {
  import opened Wrappers
  import opened Packets

  /** The framer's state as a value: its fields Complete, Unfinished and UnfinishedSizeRemaining. */
  datatype Framer = Framer(complete: seq<Packet>, unfinished: Option<Packet>, remaining: nat)

  /** A framer with nothing queued and nothing pending, as the constructor leaves it. */
  const Empty := Framer([], None, 0)

  /** There is an unfinished packet exactly when bytes are still owed to it. */
  ghost predicate Consistent(f: Framer)
  {
    f.unfinished.Some? <==> f.remaining > 0
  }

  /** The bytes held by the unfinished packet, if any. */
  function Pending(f: Framer): seq<byte>
  {
    if f.unfinished.Some? then f.unfinished.value.data else []
  }

  /** What the framing loop of AddData makes of a run of bytes that starts on a packet boundary. */
  datatype Split = Split(packets: seq<Packet>, tail: Option<Packet>, need: nat)

  function TailBytes(s: Split): seq<byte>
  {
    if s.tail.Some? then s.tail.value.data else []
  }

  /**
   * The `while( size_unprocessed )` loop of AddData, as a function. A
   * leftover shorter than its declared length becomes the unfinished tail,
   * owing exactly the missing bytes.
   */
  function Frame(fmt: HeaderFormat, data: seq<byte>): (r: Split)
    requires fmt.WellFormed()
    ensures r.tail.Some? <==> r.need > 0
    ensures r.tail.Some? ==> 0 < |r.tail.value.data| < fmt.FirstPacketSize(r.tail.value.data)
    ensures r.tail.Some? ==> |r.tail.value.data| + r.need == fmt.FirstPacketSize(r.tail.value.data)
    decreases |data|
  {
    if |data| == 0 then
      Split([], None, 0)
    else
      var size := fmt.FirstPacketSize(data);
      if |data| >= size && |data| >= fmt.headerSize then
        var rest := Frame(fmt, data[size..]);
        Split([Packet(data[..size])] + rest.packets, rest.tail, rest.need)
      else
        Split([], Some(Packet(data)), size - |data|)
  }

  /** Flatten of a packet put in front. */
  lemma FlattenCons(p: Packet, ps: seq<Packet>)
    ensures Flatten([p] + ps) == p.data + Flatten(ps)
  {
    assert ([p] + ps)[1..] == ps;
  }

  /** Splitting a sequence at `k` and joining the parts back gives the sequence. */
  lemma Rejoin(data: seq<byte>, k: nat, x: seq<byte>, y: seq<byte>, z: seq<byte>)
    requires k <= |data| && x == data[..k] && y + z == data[k..]
    ensures x + y + z == data
  {
    assert data == data[..k] + data[k..];
  }

  /** The framing loop loses, duplicates and reorders no byte. */
  lemma {:induction false} FrameConserves(fmt: HeaderFormat, data: seq<byte>)
    requires fmt.WellFormed()
    ensures Flatten(Frame(fmt, data).packets) + TailBytes(Frame(fmt, data)) == data
    decreases |data|
  {
    if |data| > 0 {
      var size := fmt.FirstPacketSize(data);
      if |data| >= size && |data| >= fmt.headerSize {
        var rest := Frame(fmt, data[size..]);
        var p := Packet(data[..size]);
        FrameConserves(fmt, data[size..]);
        FlattenCons(p, rest.packets);
        Rejoin(data, size, p.data, Flatten(rest.packets), TailBytes(rest));
      }
    }
  }

  /** Every packet holds its whole header and exactly the length that header declares. */
  ghost predicate Sized(fmt: HeaderFormat, ps: seq<Packet>)
    requires fmt.WellFormed()
  {
    forall p <- ps :: fmt.headerSize <= |p.data| == fmt.FirstPacketSize(p.data)
  }

  /** Every packet the framing loop materialises has exactly the length its header declares. */
  lemma {:induction false} FramedPacketsSized(fmt: HeaderFormat, data: seq<byte>)
    requires fmt.WellFormed()
    ensures Sized(fmt, Frame(fmt, data).packets)
    decreases |data|
  {
    if |data| > 0 {
      var size := fmt.FirstPacketSize(data);
      if |data| >= size && |data| >= fmt.headerSize {
        var p := Packet(data[..size]);
        assert p.data[..fmt.headerSize] == data[..fmt.headerSize];
        FramedPacketsSized(fmt, data[size..]);
      }
    }
  }

  /**
   * PacketBuffer::AddData as a function of the old state: first feed the
   * unfinished packet up to what it owes, then frame what is left.
   */
  function Feed(fmt: HeaderFormat, f: Framer, data: seq<byte>): (r: Framer)
    requires fmt.WellFormed() && Consistent(f)
    ensures Consistent(r)
    ensures |r.complete| >= |f.complete| && r.complete[..|f.complete|] == f.complete
    ensures f.unfinished.Some? && |data| < f.remaining ==>
              && r.complete == f.complete
              && r.unfinished == Some(Packet(f.unfinished.value.data + data))
              && r.remaining == f.remaining - |data|
    ensures f.unfinished.Some? && |data| >= f.remaining ==>
              && |r.complete| > |f.complete|
              && r.complete[|f.complete|] == Packet(f.unfinished.value.data + data[..f.remaining])
  {
    if f.unfinished.Some? then
      if |data| >= f.remaining then
        var done := Packet(f.unfinished.value.data + data[..f.remaining]);
        var s := Frame(fmt, data[f.remaining..]);
        Framer(f.complete + [done] + s.packets, s.tail, s.need)
      else
        Framer(f.complete, Some(Packet(f.unfinished.value.data + data)), f.remaining - |data|)
    else
      var s := Frame(fmt, data);
      Framer(f.complete + s.packets, s.tail, s.need)
  }

  /** Completing the unfinished packet `u` with `k` bytes and framing the rest keeps every byte. */
  lemma CompletingConserves(c: seq<Packet>, u: seq<byte>, k: nat, data: seq<byte>, ps: seq<Packet>, t: seq<byte>)
    requires k <= |data| && Flatten(ps) + t == data[k..]
    ensures Flatten(c + [Packet(u + data[..k])] + ps) + t == Flatten(c) + u + data
  {
    var done := Packet(u + data[..k]);
    FlattenAppend(c + [done], ps);
    FlattenAppend(c, [done]);
    assert Flatten([done]) == done.data by {
      assert [done][1..] == [];
    }
    Assoc(Flatten(c) + done.data, Flatten(ps), t);
    Assoc(Flatten(c), done.data, data[k..]);
    Assoc(u, data[..k], data[k..]);
    assert data[..k] + data[k..] == data;
    Assoc(Flatten(c), u, data);
  }

  lemma Assoc(a: seq<byte>, b: seq<byte>, c: seq<byte>)
    ensures a + b + c == a + (b + c)
  {
  }

  /** Queueing framed packets behind `c` keeps every byte. */
  lemma QueueingConserves(c: seq<Packet>, data: seq<byte>, ps: seq<Packet>, t: seq<byte>)
    requires Flatten(ps) + t == data
    ensures Flatten(c + ps) + t == Flatten(c) + data
  {
    FlattenAppend(c, ps);
  }

  /**
   * No byte is lost, duplicated or reordered: the completed packets followed
   * by the unfinished one hold exactly the bytes fed so far.
   */
  lemma FeedConserves(fmt: HeaderFormat, f: Framer, data: seq<byte>)
    requires fmt.WellFormed() && Consistent(f)
    ensures var r := Feed(fmt, f, data);
            Flatten(r.complete) + Pending(r) == Flatten(f.complete) + Pending(f) + data
  {
    if f.unfinished.Some? && |data| >= f.remaining {
      var s := Frame(fmt, data[f.remaining..]);
      FrameConserves(fmt, data[f.remaining..]);
      CompletingConserves(f.complete, f.unfinished.value.data, f.remaining, data, s.packets, TailBytes(s));
    } else if f.unfinished.None? {
      var s := Frame(fmt, data);
      FrameConserves(fmt, data);
      QueueingConserves(f.complete, data, s.packets, TailBytes(s));
    }
  }

  /**
   * The unfinished packet holds its whole header, and what it owes is what
   * that header declares minus what it holds.
   */
  ghost predicate Owes(fmt: HeaderFormat, f: Framer)
    requires fmt.WellFormed()
  {
    f.unfinished.Some? ==>
      var u := f.unfinished.value.data;
      fmt.headerSize <= |u| && |u| + f.remaining == fmt.FirstPacketSize(u)
  }

  /**
   * While the unfinished packet's header is whole, AddData only ever
   * completes packets of their declared length, and a new unfinished
   * packet owes exactly the rest of its declared length.
   */
  lemma FeedSized(fmt: HeaderFormat, f: Framer, data: seq<byte>)
    requires fmt.WellFormed() && Consistent(f)
    requires Sized(fmt, f.complete) && Owes(fmt, f)
    ensures var r := Feed(fmt, f, data);
            && Sized(fmt, r.complete)
            && (r.unfinished.Some? ==> |Pending(r)| + r.remaining == fmt.FirstPacketSize(Pending(r)))
  {
    var r := Feed(fmt, f, data);
    if f.unfinished.Some? {
      var u := f.unfinished.value.data;
      if |data| >= f.remaining {
        var done := Packet(u + data[..f.remaining]);
        HeaderKnown(fmt, u, data[..f.remaining]);
        FramedPacketsSized(fmt, data[f.remaining..]);
        SizedAppend(fmt, f.complete + [done], Frame(fmt, data[f.remaining..]).packets);
      } else {
        HeaderKnown(fmt, u, data);
      }
    } else {
      FramedPacketsSized(fmt, data);
      SizedAppend(fmt, f.complete, Frame(fmt, data).packets);
    }
  }

  lemma SizedAppend(fmt: HeaderFormat, a: seq<Packet>, b: seq<Packet>)
    requires fmt.WellFormed() && Sized(fmt, a) && Sized(fmt, b)
    ensures Sized(fmt, a + b)
  {
  }

  /** Feeding the chunks one AddData call after another. */
  function FeedAll(fmt: HeaderFormat, f: Framer, chunks: seq<seq<byte>>): (r: Framer)
    requires fmt.WellFormed() && Consistent(f)
    ensures Consistent(r)
    decreases |chunks|
  {
    if chunks == [] then f else Feed(fmt, FeedAll(fmt, f, chunks[..|chunks| - 1]), chunks[|chunks| - 1])
  }

  /** All the chunks' bytes, in order. */
  function Concat(chunks: seq<seq<byte>>): seq<byte>
    decreases |chunks|
  {
    if chunks == [] then [] else Concat(chunks[..|chunks| - 1]) + chunks[|chunks| - 1]
  }

  /** The unfinished packet, if any, already holds its whole header. */
  ghost predicate HeaderWhole(fmt: HeaderFormat, f: Framer)
  {
    f.unfinished.Some? ==> |f.unfinished.value.data| >= fmt.headerSize
  }

  /**
   * Framing `x + y` frames `x` first: the packets that lie wholly in `x`
   * come first, and framing resumes at the start of x's leftover.
   */
  lemma {:induction false} FrameSkip(fmt: HeaderFormat, x: seq<byte>, y: seq<byte>)
    requires fmt.WellFormed()
    ensures Frame(fmt, x + y).packets == Frame(fmt, x).packets + Frame(fmt, TailBytes(Frame(fmt, x)) + y).packets
    ensures Frame(fmt, x + y).tail == Frame(fmt, TailBytes(Frame(fmt, x)) + y).tail
    ensures Frame(fmt, x + y).need == Frame(fmt, TailBytes(Frame(fmt, x)) + y).need
    decreases |x|
  {
    if |x| == 0 {
      assert x + y == y;
    } else {
      var size := fmt.FirstPacketSize(x);
      if |x| >= size && |x| >= fmt.headerSize {
        var xs := x[size..];
        HeaderPrefix(fmt, x, y);
        FrameSkip(fmt, xs, y);
        SeqAssoc([Packet(x[..size])], Frame(fmt, xs).packets, Frame(fmt, TailBytes(Frame(fmt, xs)) + y).packets);
      }
    }
  }

  /** Bytes after a whole header do not change what it declares. */
  lemma HeaderPrefix(fmt: HeaderFormat, x: seq<byte>, y: seq<byte>)
    requires fmt.WellFormed() && |x| >= fmt.FirstPacketSize(x) && |x| >= fmt.headerSize
    ensures fmt.FirstPacketSize(x + y) == fmt.FirstPacketSize(x)
    ensures (x + y)[..fmt.FirstPacketSize(x)] == x[..fmt.FirstPacketSize(x)]
    ensures (x + y)[fmt.FirstPacketSize(x)..] == x[fmt.FirstPacketSize(x)..] + y
  {
    assert (x + y)[..fmt.headerSize] == x[..fmt.headerSize];
  }

  /** Splitting packet `p` off the front of what is still to be framed keeps the queue's future. */
  lemma Advance(c0: seq<Packet>, c: seq<Packet>, p: Packet, s: Split, s1: Split, s0: Split)
    requires s == Split([p] + s1.packets, s1.tail, s1.need)
    requires c + s.packets == c0 + s0.packets && s.tail == s0.tail && s.need == s0.need
    ensures (c + [p]) + s1.packets == c0 + s0.packets && s1.tail == s0.tail && s1.need == s0.need
  {
    SeqAssoc(c, [p], s1.packets);
  }

  lemma SeqAssoc(a: seq<Packet>, b: seq<Packet>, c: seq<Packet>)
    ensures a + (b + c) == (a + b) + c
  {
  }

  /**
   * One chunk boundary that does not split a header changes nothing:
   * feeding `b` to the state that framing `a` leaves is framing `a + b`.
   */
  lemma FeedAfterFrame(fmt: HeaderFormat, c: seq<Packet>, a: seq<byte>, b: seq<byte>)
    requires fmt.WellFormed()
    requires HeaderWhole(fmt, Feed(fmt, Framer(c, None, 0), a))
    ensures Feed(fmt, Feed(fmt, Framer(c, None, 0), a), b) == Feed(fmt, Framer(c, None, 0), a + b)
  {
    var sa := Frame(fmt, a);
    var t := TailBytes(sa);
    FrameSkip(fmt, a, b);
    if sa.tail.None? {
      assert t + b == b;
      SeqAssoc(c, sa.packets, Frame(fmt, b).packets);
    } else {
      // The leftover `t` holds its whole header, so its declared size is final.
      HeaderKnown(fmt, t, b);
      if |b| >= sa.need {
        SplitAfter(t, b, sa.need);
        var done := Packet(t + b[..sa.need]);
        var rest := Frame(fmt, b[sa.need..]).packets;
        assert Frame(fmt, t + b).packets == [done] + rest;
        SeqAssoc4(c, sa.packets, [done], rest);
      }
    }
  }

  /** A header that has fully arrived declares the same size whatever follows it. */
  lemma HeaderKnown(fmt: HeaderFormat, t: seq<byte>, b: seq<byte>)
    requires fmt.WellFormed() && |t| >= fmt.headerSize
    ensures fmt.FirstPacketSize(t + b) == fmt.FirstPacketSize(t)
  {
    assert (t + b)[..fmt.headerSize] == t[..fmt.headerSize];
  }

  lemma SplitAfter(t: seq<byte>, b: seq<byte>, k: nat)
    requires k <= |b|
    ensures (t + b)[..|t| + k] == t + b[..k]
    ensures (t + b)[|t| + k..] == b[k..]
  {
  }

  lemma SeqAssoc4(a: seq<Packet>, b: seq<Packet>, c: seq<Packet>, d: seq<Packet>)
    ensures a + (b + (c + d)) == a + b + c + d
  {
  }

  /**
   * Chunking-invariance, for partitions whose boundaries never fall inside
   * a header: a boundary is harmless when framing the stream up to it at
   * once leaves no partial header behind.
   */
  lemma {:induction false} ChunkingInvariance(fmt: HeaderFormat, chunks: seq<seq<byte>>)
    requires fmt.WellFormed()
    requires forall i :: 0 < i < |chunks| ==> HeaderWhole(fmt, Feed(fmt, Empty, Concat(chunks[..i])))
    ensures FeedAll(fmt, Empty, chunks) == Feed(fmt, Empty, Concat(chunks))
    decreases |chunks|
  {
    if chunks != [] {
      var n := |chunks| - 1;
      var front := chunks[..n];
      if n == 0 {
        assert front == [];
        assert Concat(chunks) == [] + chunks[0] == chunks[0];
        assert FeedAll(fmt, Empty, chunks) == Feed(fmt, Empty, chunks[0]);
      } else {
        FrontBoundaries(fmt, chunks, n);
        ChunkingInvariance(fmt, front);
        var whole := Concat(front);
        assert Concat(chunks) == whole + chunks[n];
        assert FeedAll(fmt, Empty, chunks) == Feed(fmt, Feed(fmt, Empty, whole), chunks[n]);
        assert chunks[..n] == front;
        FeedAfterFrame(fmt, [], whole, chunks[n]);
      }
    }
  }

  /** The boundaries of a prefix of the chunks are boundaries of the whole partition. */
  lemma FrontBoundaries(fmt: HeaderFormat, chunks: seq<seq<byte>>, n: nat)
    requires fmt.WellFormed() && n <= |chunks|
    requires forall i :: 0 < i < |chunks| ==> HeaderWhole(fmt, Feed(fmt, Empty, Concat(chunks[..i])))
    ensures forall i :: 0 < i < n ==> HeaderWhole(fmt, Feed(fmt, Empty, Concat(chunks[..n][..i])))
  {
    forall i | 0 < i < n
      ensures HeaderWhole(fmt, Feed(fmt, Empty, Concat(chunks[..n][..i])))
    {
      assert chunks[..n][..i] == chunks[..i];
    }
  }

  // ---------------------------------------------------------------------
  // The split-header defect and its correction.

  /**
   * A framer whose headers are two bytes long, the second byte giving the
   * payload length; a lone first byte is read as an empty payload.
   */
  function TwoByteSize(h: seq<byte>): (n: nat)
    ensures n >= 2
  {
    if |h| >= 2 then 2 + h[1] as int else 2
  }

  function TwoByteFormat(): (fmt: HeaderFormat)
    ensures fmt.WellFormed()
  {
    HeaderFormat(2, TwoByteSize)
  }

  /**
   * As written, a chunk boundary one byte into a header changes the framing:
   * the size is read from the partial header and never read again, so the
   * seven-byte packet [0, 5, 1, 2, 3, 4, 5] comes out as two wrong packets.
   */
  lemma SplitHeaderCounterexample()
    ensures var fmt := TwoByteFormat();
            var chunks := [[0], [5, 1, 2, 3, 4, 5]];
            && Feed(fmt, Empty, Concat(chunks)).complete == [Packet([0, 5, 1, 2, 3, 4, 5])]
            && FeedAll(fmt, Empty, chunks).complete == [Packet([0, 5]), Packet([1, 2, 3, 4])]
  {
    var fmt := TwoByteFormat();
    var chunks: seq<seq<byte>> := [[0], [5, 1, 2, 3, 4, 5]];
    assert chunks[..1] == [[0]] && chunks[1] == [5, 1, 2, 3, 4, 5];
    assert [[0]][..0] == [];
    assert Concat(chunks) == [0, 5, 1, 2, 3, 4, 5] by {
      assert Concat([[0]]) == [] + [0];
    }
    WholeStreamFramed();
    assert FeedAll(fmt, Empty, [[0]]) == Feed(fmt, FeedAll(fmt, Empty, []), [0]);
    assert FeedAll(fmt, Empty, chunks) == Feed(fmt, Feed(fmt, Empty, [0]), [5, 1, 2, 3, 4, 5]);
    ChunkedStreamFramed();
  }

  /** In one call, the seven bytes frame as one packet. */
  lemma WholeStreamFramed()
    ensures Feed(TwoByteFormat(), Empty, [0, 5, 1, 2, 3, 4, 5]).complete == [Packet([0, 5, 1, 2, 3, 4, 5])]
  {
    var fmt := TwoByteFormat();
    var whole: seq<byte> := [0, 5, 1, 2, 3, 4, 5];
    assert fmt.FirstPacketSize(whole) == 7 by {
      assert whole[..2] == [0, 5];
    }
    assert whole[7..] == [];
    assert whole[..7] == whole;
    assert Frame(fmt, whole) == Split([Packet(whole)], None, 0);
  }

  /** Split after one byte, the lone first byte is taken for a header declaring two bytes. */
  lemma ChunkedStreamFramed()
    ensures var fmt := TwoByteFormat();
            Feed(fmt, Feed(fmt, Empty, [0]), [5, 1, 2, 3, 4, 5]).complete == [Packet([0, 5]), Packet([1, 2, 3, 4])]
  {
    var fmt := TwoByteFormat();
    assert fmt.FirstPacketSize([0]) == 2;
    assert Frame(fmt, [0]) == Split([], Some(Packet([0])), 1);
    var first := Feed(fmt, Empty, [0]);
    assert first == Framer([], Some(Packet([0])), 1);
    var b: seq<byte> := [5, 1, 2, 3, 4, 5];
    assert b[..1] == [5] && b[1..] == [1, 2, 3, 4, 5];
    var rest: seq<byte> := [1, 2, 3, 4, 5];
    assert fmt.FirstPacketSize(rest) == 4 by {
      assert rest[..2] == [1, 2];
    }
    assert rest[..4] == [1, 2, 3, 4] && rest[4..] == [5];
    assert fmt.FirstPacketSize([5]) == 2;
    assert Frame(fmt, [5]) == Split([], Some(Packet([5])), 1);
    assert Frame(fmt, rest).packets == [Packet([1, 2, 3, 4])];
    assert [0] + [5] == [0, 5];
  }

  /**
   * The corrected framer: the unfinished packet's bytes, header included,
   * are a growing buffer that is framed afresh with each chunk, so a size
   * is only taken from a complete header.
   */
  function FeedReparsing(fmt: HeaderFormat, f: Framer, data: seq<byte>): (r: Framer)
    requires fmt.WellFormed()
    ensures Consistent(r)
    ensures |r.complete| >= |f.complete| && r.complete[..|f.complete|] == f.complete
  {
    var s := Frame(fmt, Pending(f) + data);
    var r := Framer(f.complete + s.packets, s.tail, s.need);
    assert r.complete[..|f.complete|] == f.complete;
    r
  }

  /** The re-parsing framer keeps every byte too. */
  lemma FeedReparsingConserves(fmt: HeaderFormat, f: Framer, data: seq<byte>)
    requires fmt.WellFormed()
    ensures var r := FeedReparsing(fmt, f, data);
            Flatten(r.complete) + Pending(r) == Flatten(f.complete) + Pending(f) + data
  {
    var s := Frame(fmt, Pending(f) + data);
    FrameConserves(fmt, Pending(f) + data);
    QueueingConserves(f.complete, Pending(f) + data, s.packets, TailBytes(s));
    Assoc(Flatten(f.complete), Pending(f), data);
  }

  function FeedAllReparsing(fmt: HeaderFormat, f: Framer, chunks: seq<seq<byte>>): (r: Framer)
    requires fmt.WellFormed()
    decreases |chunks|
  {
    if chunks == [] then f else FeedReparsing(fmt, FeedAllReparsing(fmt, f, chunks[..|chunks| - 1]), chunks[|chunks| - 1])
  }

  /** With re-parsing, every partition of the stream frames it as one call does. */
  lemma {:induction false} ChunkingInvarianceReparsing(fmt: HeaderFormat, chunks: seq<seq<byte>>)
    requires fmt.WellFormed()
    ensures FeedAllReparsing(fmt, Empty, chunks) == FeedReparsing(fmt, Empty, Concat(chunks))
    decreases |chunks|
  {
    if chunks == [] {
      assert Frame(fmt, []) == Split([], None, 0);
    } else {
      var n := |chunks| - 1;
      ChunkingInvarianceReparsing(fmt, chunks[..n]);
      var a := Concat(chunks[..n]);
      var sa := Frame(fmt, a);
      FrameSkip(fmt, a, chunks[n]);
      assert [] + a == a;
      assert Pending(FeedReparsing(fmt, Empty, a)) == TailBytes(sa);
      assert [] + Concat(chunks) == Concat(chunks);
    }
  }

  // ---------------------------------------------------------------------
  // The imperative framer.

  class PacketBuffer {
    /** The Packet class's framing contract. */
    const format: HeaderFormat
    var complete: seq<Packet>
    var unfinished: Option<Packet>
    var unfinishedSizeRemaining: nat

    ghost predicate Valid()
      reads this
    {
      format.WellFormed() && Consistent(State())
    }

    function State(): Framer
      reads this
    {
      Framer(complete, unfinished, unfinishedSizeRemaining)
    }

    constructor (format: HeaderFormat)
      requires format.WellFormed()
      ensures Valid() && this.format == format
      ensures State() == Empty
    {
      this.format := format;
      complete := [];
      unfinished := None;
      unfinishedSizeRemaining := 0;
    }

    /**
     * PacketBuffer::AddData. A chunk shorter than what the unfinished packet
     * owes is appended to it whole and completes nothing; a longer one
     * completes it with exactly the bytes it owes, and framing resumes at
     * the next byte.
     */
    method AddData(data: seq<byte>)
      requires Valid()
      modifies this
      ensures Valid()
      ensures State() == Feed(format, old(State()), data)
    {
      var c: seq<Packet>, u: Option<Packet>, r: nat := complete, unfinished, unfinishedSizeRemaining;
      if u.Some? {
        if |data| >= r {
          c := c + [Packet(u.value.data + data[..r])];
          c, u, r := FrameRest(c, data, r);
        } else {
          u := Some(Packet(u.value.data + data));
          r := r - |data|;
        }
      } else {
        c, u, r := FrameRest(c, data, 0);
        assert data[0..] == data;
      }
      complete, unfinished, unfinishedSizeRemaining := c, u, r;
    }

    /**
     * The framing loop of PacketBuffer::AddData: whole packets of `data[start..]`
     * are queued behind `c`, and what is left over becomes the unfinished packet.
     */
    method FrameRest(c: seq<Packet>, data: seq<byte>, start: nat) returns (c': seq<Packet>, u: Option<Packet>, r: nat)
      requires format.WellFormed() && start <= |data|
      ensures var s := Frame(format, data[start..]);
              c' == c + s.packets && u == s.tail && r == s.need
    {
      c', u, r := c, None, 0;
      var rest := data[start..];
      ghost var s0 := Frame(format, rest);
      while |rest| > 0
        invariant var s := Frame(format, rest);
                  |rest| > 0 ==> c' + s.packets == c + s0.packets && s.tail == s0.tail && s.need == s0.need
        invariant |rest| > 0 ==> u.None? && r == 0
        invariant |rest| == 0 ==> c' == c + s0.packets && u == s0.tail && r == s0.need
        decreases |rest|
      {
        var packetSize := format.FirstPacketSize(rest);
        if |rest| >= packetSize && |rest| >= format.headerSize {
          var packet := Packet(rest[..packetSize]);
          Advance(c, c', packet, Frame(format, rest), Frame(format, rest[packetSize..]), s0);
          c' := c' + [packet];
          rest := rest[packetSize..];
        } else {
          assert Frame(format, rest) == Split([], Some(Packet(rest)), packetSize - |rest|);
          assert c' + [] == c';
          u := Some(Packet(rest));
          r := packetSize - |rest|;
          rest := [];
        }
      }
    }

    /** PacketBuffer::Pop: the oldest completed packet, or none. */
    method Pop() returns (p: Option<Packet>)
      requires Valid()
      modifies this`complete
      ensures Valid()
      ensures old(complete) == [] ==> p == None && complete == []
      ensures old(complete) != [] ==> p == Some(old(complete)[0]) && complete == old(complete)[1..]
    {
      if |complete| == 0 {
        return None;
      }
      p := Some(complete[0]);
      complete := complete[1..];
    }
  }
}
