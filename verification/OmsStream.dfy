/**
  The packet parser of the OMS ground speed sensor's TCP stream.

  Main results: the frames logged and the verdict depend only on the bytes received, however the reads cut
  them (ChunkingDoesNotMatter); parsing inverts printing, and the parser accepts only what a printer could
  have sent (ParseUndoesPrint, AcceptedIsPrinted).
*/
module OmsStream {
  import opened LittleEndian

  const HEADER_SIZE: nat := 16
  /** Offset of the header's type field: len counts the bytes from there. */
  const TYPE_OFFSET: nat := 12
  const FRAME_SIZE: nat := 144
  /** Size of the receive buffer, which also bounds len. */
  const BUFFER_SIZE: nat := 65536
  const MAGIC: seq<byte> := ['e' as byte, 'S' as byte, 1, 0]

  type Frame = f: seq<byte> | |f| == FRAME_SIZE witness seq(FRAME_SIZE, _ => 0)

  // ------------------------------------------------------------------ parsing

  /** The length field of the header at the front of s. */
  function Len(s: seq<byte>): nat
    requires |s| >= HEADER_SIZE
  {
    U32(s[8..12])
  }

  predicate HeaderOk(s: seq<byte>)
    requires |s| >= HEADER_SIZE
  {
    s[..4] == MAGIC && U16(s[14..16]) == FRAME_SIZE && 4 + FRAME_SIZE <= Len(s) <= BUFFER_SIZE
  }

  function PacketSize(s: seq<byte>): nat
    requires |s| >= HEADER_SIZE
  {
    TYPE_OFFSET + Len(s)
  }

  /** The first n frames of the packet at the front of s. */
  function Frames(s: seq<byte>, n: nat): seq<Frame>
    requires HEADER_SIZE + n * FRAME_SIZE <= |s|
  {
    if n == 0 then []
    else
      var start := HEADER_SIZE + (n - 1) * FRAME_SIZE;
      Frames(s, n - 1) + [s[start..start + FRAME_SIZE]]
  }

  function Count(s: seq<byte>): nat
    requires |s| >= HEADER_SIZE && HeaderOk(s)
  {
    (Len(s) - 4) / FRAME_SIZE
  }

  /** Every frame lies inside its packet, of which at least 160 bytes are consumed. */
  lemma FramesLieInPacket(s: seq<byte>)
    requires |s| >= HEADER_SIZE && HeaderOk(s)
    ensures Count(s) >= 1
            && HEADER_SIZE + Count(s) * FRAME_SIZE <= PacketSize(s) < HEADER_SIZE + (Count(s) + 1) * FRAME_SIZE
    ensures HEADER_SIZE + FRAME_SIZE <= PacketSize(s) <= TYPE_OFFSET + BUFFER_SIZE
  {
    hide HeaderOk, Len;
    assert 4 + FRAME_SIZE <= Len(s) <= BUFFER_SIZE by { HeaderBounds(s); }
  }

  lemma HeaderBounds(s: seq<byte>)
    requires |s| >= HEADER_SIZE && HeaderOk(s)
    ensures 4 + FRAME_SIZE <= Len(s) <= BUFFER_SIZE
  {
  }

  /** The frames of the complete packets, the bytes after them, and whether no malformed header follows. */
  datatype Parsed = Parsed(frames: seq<Frame>, rest: seq<byte>, ok: bool)

  function After(frames: seq<Frame>, p: Parsed): Parsed { Parsed(frames + p.frames, p.rest, p.ok) }

  lemma AfterAfter(f: seq<Frame>, g: seq<Frame>, p: Parsed)
    ensures After(f, After(g, p)) == After(f + g, p)
  {
    assert f + (g + p.frames) == f + g + p.frames;
  }

  predicate Complete(s: seq<byte>) { |s| >= HEADER_SIZE && HeaderOk(s) && PacketSize(s) <= |s| }

  function Head(s: seq<byte>): seq<Frame>
    requires Complete(s)
  {
    FramesLieInPacket(s);
    Frames(s, Count(s))
  }

  function Parse(s: seq<byte>): Parsed
    decreases |s|
  {
    if !Complete(s) then Parsed([], s, |s| < HEADER_SIZE || HeaderOk(s))
    else
      FramesLieInPacket(s);
      After(Head(s), Parse(s[PacketSize(s)..]))
  }

  lemma ParseComplete(s: seq<byte>)
    requires Complete(s)
    ensures HEADER_SIZE + FRAME_SIZE <= PacketSize(s) <= |s|
    ensures Parse(s) == After(Head(s), Parse(s[PacketSize(s)..]))
  {
    FramesLieInPacket(s);
  }

  lemma ParseAdvances(s: seq<byte>, pos: nat, parsed: seq<Frame>)
    requires pos <= |s| && Complete(s[pos..]) && Parse(s) == After(parsed, Parse(s[pos..]))
    ensures pos + PacketSize(s[pos..]) <= |s|
    ensures Parse(s) == After(parsed + Head(s[pos..]), Parse(s[pos + PacketSize(s[pos..])..]))
  {
    var t := s[pos..];
    ParseComplete(t);
    hide Parse, Complete, Head, After, PacketSize;
    assert t[PacketSize(t)..] == s[pos + PacketSize(t)..];
    AfterAfter(parsed, Head(t), Parse(t[PacketSize(t)..]));
  }

  lemma ParseIncomplete(s: seq<byte>)
    requires !Complete(s)
    ensures Parse(s) == Parsed([], s, |s| < HEADER_SIZE || HeaderOk(s))
  {
  }

  class OmsComms {
    var stream: seq<byte>
    var log: seq<Frame>
    var connected: bool

    constructor ()
      ensures stream == [] && log == [] && !connected
    {
      stream, log, connected := [], [], false;
    }

    method Connected()
      modifies this
      ensures stream == [] && connected && log == old(log)
    {
      stream := [];
      connected := true;
    }

    /** Parses the stream from its front; afterwards it holds Parse's rest, or is as it was on a bad header. */
    method ParsePackets() returns (ok: bool)
      modifies this`stream, this`log
      ensures ok == Parse(old(stream)).ok
      ensures log == old(log) + Parse(old(stream)).frames
      ensures stream == if ok then Parse(old(stream)).rest else old(stream)
    {
      hide Parse, Head, Frames;
      var pos := 0;
      ghost var all, parsed: seq<Frame> := stream, [];
      while |stream| - pos >= HEADER_SIZE
        invariant 0 <= pos <= |all| && stream == all
        invariant log == old(log) + parsed
        invariant Parse(all) == After(parsed, Parse(all[pos..]))
      {
        var header := stream[pos..];
        if !HeaderOk(header) {
          ParseIncomplete(header);
          return false;
        }
        var packetSize := PacketSize(header);
        if |stream| - pos < packetSize { break; }

        ParseAdvances(all, pos, parsed);
        hide HeaderOk, PacketSize, Complete, After;
        LogFrames(pos);
        parsed := parsed + Head(header);
        pos := pos + packetSize;
      }
      ParseIncomplete(stream[pos..]);
      stream := stream[pos..];
      return true;
    }

    /** Logs the frames of the complete packet at pos. */
    method LogFrames(pos: nat)
      requires pos <= |stream| && Complete(stream[pos..])
      modifies this`log
      ensures log == old(log) + Head(stream[pos..])
    {
      ghost var header := stream[pos..];
      FramesLieInPacket(header);
      hide HeaderOk;
      var n := (U32(stream[pos + 8..pos + 12]) - 4) / FRAME_SIZE;
      assert stream[pos + 8..pos + 12] == header[8..12];
      for i := 0 to n
        invariant log == old(log) + Frames(header, i)
      {
        var start := pos + HEADER_SIZE + i * FRAME_SIZE;
        assert stream[start..start + FRAME_SIZE] == header[start - pos..start - pos + FRAME_SIZE];
        log := log + [stream[start..start + FRAME_SIZE]];
      }
    }

    method HandleReceive(chunk: seq<byte>)
      requires connected
      modifies this
      ensures Value() == Received(old(Value()), chunk)
    {
      stream := stream + chunk;
      var ok := ParsePackets();
      if !ok {
        connected := false;
      }
    }

    function Value(): Connection
      reads this
    {
      Connection(stream, log, connected)
    }
  }

  // ------------------------------------------------------------------ chunking

  datatype Connection = Connection(stream: seq<byte>, log: seq<Frame>, connected: bool)

  function Received(c: Connection, chunk: seq<byte>): Connection {
    var p := Parse(c.stream + chunk);
    Connection(if p.ok then p.rest else c.stream + chunk, c.log + p.frames, p.ok)
  }

  /** The reads of one connection; a malformed header ends it, and later bytes are not read. */
  function Session(c: Connection, chunks: seq<seq<byte>>): Connection
    decreases |chunks|
  {
    if chunks == [] || !c.connected then c else Session(Received(c, chunks[0]), chunks[1..])
  }

  function Concat(chunks: seq<seq<byte>>): seq<byte> {
    if chunks == [] then [] else chunks[0] + Concat(chunks[1..])
  }

  lemma HeaderIsPrefix(a: seq<byte>, b: seq<byte>)
    requires |a| >= HEADER_SIZE
    ensures HeaderOk(a + b) == HeaderOk(a) && Len(a + b) == Len(a)
  {
    assert (a + b)[..4] == a[..4] && (a + b)[8..12] == a[8..12] && (a + b)[14..16] == a[14..16];
  }

  lemma {:induction false} FramesArePrefix(a: seq<byte>, b: seq<byte>, n: nat)
    requires HEADER_SIZE + n * FRAME_SIZE <= |a|
    ensures Frames(a + b, n) == Frames(a, n)
  {
    if n > 0 {
      FramesArePrefix(a, b, n - 1);
      var start := HEADER_SIZE + (n - 1) * FRAME_SIZE;
      assert (a + b)[start..start + FRAME_SIZE] == a[start..start + FRAME_SIZE];
    }
  }

  lemma HeadIsPrefix(a: seq<byte>, b: seq<byte>)
    requires Complete(a)
    ensures Complete(a + b) && PacketSize(a + b) == PacketSize(a) && Head(a + b) == Head(a)
  {
    HeaderIsPrefix(a, b);
    FramesLieInPacket(a);
    hide HeaderOk, Len;
    FramesArePrefix(a, b, Count(a));
  }

  /** Parsing more bytes logs the same frames first, and goes on from what was left. */
  lemma {:induction false} ParseOfConcat(a: seq<byte>, b: seq<byte>)
    ensures !Parse(a).ok ==> !Parse(a + b).ok && Parse(a + b).frames == Parse(a).frames
    ensures Parse(a).ok ==> Parse(a + b) == After(Parse(a).frames, Parse(Parse(a).rest + b))
    decreases |a|
  {
    if Complete(a) {
      HeadIsPrefix(a, b);
      ParseComplete(a);
      ParseComplete(a + b);
      hide HeaderOk, PacketSize, Head, Complete, Parse;
      var size := PacketSize(a);
      var t := a[size..];
      assert (a + b)[size..] == t + b;
      ParseOfConcat(t, b);
      AfterAfter(Head(a), Parse(t).frames, Parse(Parse(t).rest + b));
    } else {
      hide Complete;
      ParseOfConcatIncomplete(a, b);
    }
  }

  lemma ParseOfConcatIncomplete(a: seq<byte>, b: seq<byte>)
    requires !Complete(a)
    ensures !Parse(a).ok ==> !Parse(a + b).ok && Parse(a + b).frames == Parse(a).frames
    ensures Parse(a).ok ==> Parse(a + b) == After(Parse(a).frames, Parse(Parse(a).rest + b))
  {
    if |a| >= HEADER_SIZE { HeaderIsPrefix(a, b); }
  }

  predicate Exhausted(s: seq<byte>) { Parse(s) == Parsed([], s, true) }

  /** The connection after more bytes, in terms of one parse of all of them. */
  predicate Parses(c: Connection, all: seq<byte>, log: seq<Frame>) {
    var p := Parse(all);
    c.log == log + p.frames && c.connected == p.ok && (p.ok ==> c.stream == p.rest)
  }

  lemma ReceiveParses(c: Connection, chunk: seq<byte>, more: seq<byte>)
    requires Received(c, chunk).connected
    ensures var d := Received(c, chunk); Exhausted(d.stream)
    ensures var p, q := Parse(c.stream + (chunk + more)), Parse(Received(c, chunk).stream + more);
            && c.log + p.frames == Received(c, chunk).log + q.frames && p.ok == q.ok && p.rest == q.rest
  {
    hide Parse;
    var all := c.stream + chunk;
    ParseOfConcat(all, more);
    RestIsIncomplete(all);
    assert all + more == c.stream + (chunk + more);
    AfterAfter(c.log, Parse(all).frames, Parse(Parse(all).rest + more));
  }

  lemma {:induction false} SessionParses(c: Connection, chunks: seq<seq<byte>>)
    requires c.connected && Exhausted(c.stream)
    ensures Parses(Session(c, chunks), c.stream + Concat(chunks), c.log)
    decreases |chunks|
  {
    hide Parse;
    if chunks == [] {
      assert c.stream + [] == c.stream;
    } else {
      var d, rest := Received(c, chunks[0]), Concat(chunks[1..]);
      if d.connected {
        ReceiveParses(c, chunks[0], rest);
        SessionParses(d, chunks[1..]);
      } else {
        ParseOfConcat(c.stream + chunks[0], rest);
        assert c.stream + chunks[0] + rest == c.stream + (chunks[0] + rest);
      }
    }
  }

  /** What is kept holds no complete packet, and is short. */
  lemma {:induction false} RestIsIncomplete(s: seq<byte>)
    requires Parse(s).ok
    ensures var rest := Parse(s).rest; Exhausted(rest) && |rest| < 65548
    decreases |s|
  {
    if Complete(s) {
      FramesLieInPacket(s);
      RestIsIncomplete(s[PacketSize(s)..]);
    }
  }

  /**
    Within one connection, the frames logged, whether the stream was found malformed, and what is kept if it
    was not, are those of parsing all bytes at once: two ways to cut the same bytes give the same results.
  */
  lemma ChunkingDoesNotMatter(log: seq<Frame>, chunks: seq<seq<byte>>, others: seq<seq<byte>>)
    requires Concat(chunks) == Concat(others)
    ensures var c := Connection([], log, true);
            var d, e, p := Session(c, chunks), Session(c, others), Parse(Concat(chunks));
            && d.log == e.log == log + p.frames
            && d.connected == e.connected == p.ok
            && (p.ok ==> d.stream == e.stream == p.rest && |p.rest| < TYPE_OFFSET + BUFFER_SIZE)
  {
    var c := Connection([], log, true);
    SessionParses(c, chunks);
    SessionParses(c, others);
    assert [] + Concat(chunks) == Concat(chunks);
    if Parse(Concat(chunks)).ok { RestIsIncomplete(Concat(chunks)); }
  }

  // ------------------------------------------------------------------ printing

  /** A packet the sensor may send: at least one frame, and fewer bytes than a frame after the last. */
  datatype Packet = Packet(seqNo: nat, kind: nat, frames: seq<Frame>, padding: seq<byte>) {
    function Length(): nat { 4 + |frames| * FRAME_SIZE + |padding| }

    predicate Valid() {
      seqNo < 0x1_0000_0000 && kind < 0x1_0000 && |frames| >= 1 && |padding| < FRAME_SIZE && Length() <= BUFFER_SIZE
    }
  }

  function Body(frames: seq<Frame>): (s: seq<byte>)
    ensures |s| == |frames| * FRAME_SIZE
  {
    if frames == [] then [] else Body(frames[..|frames| - 1]) + frames[|frames| - 1]
  }

  function Header(p: Packet): (s: seq<byte>)
    requires p.Valid()
    ensures |s| == HEADER_SIZE
  {
    MAGIC + Le32(p.seqNo) + Le32(p.Length()) + Le16(p.kind) + Le16(FRAME_SIZE)
  }

  function Print(p: Packet): (s: seq<byte>)
    requires p.Valid()
    ensures |s| == TYPE_OFFSET + p.Length()
  {
    Header(p) + Body(p.frames) + p.padding
  }

  function PrintAll(ps: seq<Packet>): seq<byte>
    requires forall p :: p in ps ==> p.Valid()
  {
    if ps == [] then [] else Print(ps[0]) + PrintAll(ps[1..])
  }

  function AllFrames(ps: seq<Packet>): seq<Frame> { if ps == [] then [] else ps[0].frames + AllFrames(ps[1..]) }

  lemma HeaderReads(p: Packet, s: seq<byte>)
    requires p.Valid() && |s| >= HEADER_SIZE && s[..HEADER_SIZE] == Header(p)
    ensures HeaderOk(s) && Len(s) == p.Length()
  {
    var h := Header(p);
    assert s[..4] == h[..4] == MAGIC;
    assert s[8..12] == h[8..12] == Le32(p.Length());
    assert s[14..16] == h[14..16] == Le16(FRAME_SIZE);
  }

  lemma MiddleOf(a: seq<byte>, m: seq<byte>, t: seq<byte>)
    ensures (a + m + t)[|a|..|a| + |m|] == m && a + m + t == a + (m + t)
  {
  }

  lemma FramesNext(s: seq<byte>, n: nat)
    requires HEADER_SIZE + (n + 1) * FRAME_SIZE <= |s|
    ensures var start := HEADER_SIZE + n * FRAME_SIZE; Frames(s, n + 1) == Frames(s, n) + [s[start..start + FRAME_SIZE]]
  {
  }

  lemma BodyNext(h: seq<byte>, frames: seq<Frame>, t: seq<byte>)
    requires frames != []
    ensures var init, last := frames[..|frames| - 1], frames[|frames| - 1];
            h + Body(frames) + t == h + Body(init) + last + t
  {
  }

  lemma {:induction false} FramesOfBody(h: seq<byte>, frames: seq<Frame>, t: seq<byte>)
    requires |h| == HEADER_SIZE
    ensures Frames(h + Body(frames) + t, |frames|) == frames
    decreases |frames|
  {
    hide Frames, Body;
    if frames != [] {
      var n := |frames|;
      var init, last := frames[..n - 1], frames[n - 1];
      BodyNext(h, frames, t);
      MiddleOf(h + Body(init), last, t);
      FramesOfBody(h, init, last + t);
      FramesNext(h + Body(frames) + t, n - 1);
      assert frames == init + [last];
    } else {
      NoFramesYet(h + Body(frames) + t);
    }
  }

  lemma NoFramesYet(s: seq<byte>)
    requires |s| >= HEADER_SIZE
    ensures Frames(s, 0) == []
  {
  }

  lemma PrintIsPacket(p: Packet, t: seq<byte>)
    requires p.Valid()
    ensures var s := Print(p) + t; Complete(s) && PacketSize(s) == |Print(p)| && Head(s) == p.frames
  {
    var s := Print(p) + t;
    assert s[..HEADER_SIZE] == Header(p);
    HeaderReads(p, s);
    hide HeaderOk, Len, Header;
    assert Count(s) == |p.frames|;
    assert s == Header(p) + Body(p.frames) + (p.padding + t);
    FramesOfBody(Header(p), p.frames, p.padding + t);
  }

  /** Parsing the print of packets gives back their frames in order, with nothing left. */
  lemma {:induction false} ParseUndoesPrint(ps: seq<Packet>)
    requires forall p :: p in ps ==> p.Valid()
    ensures Parse(PrintAll(ps)) == Parsed(AllFrames(ps), [], true)
    decreases |ps|
  {
    if ps != [] {
      PrintIsPacket(ps[0], PrintAll(ps[1..]));
      ParseUndoesPrint(ps[1..]);
      assert PrintAll(ps)[|Print(ps[0])|..] == PrintAll(ps[1..]);
      hide Complete, Head, Print;
    }
  }

  // ------------------------------------------------------------------ only prints are accepted

  lemma {:induction false} BodyOfFrames(s: seq<byte>, n: nat)
    requires HEADER_SIZE + n * FRAME_SIZE <= |s|
    ensures |Frames(s, n)| == n && Body(Frames(s, n)) == s[HEADER_SIZE..HEADER_SIZE + n * FRAME_SIZE]
  {
    if n > 0 {
      BodyOfFrames(s, n - 1);
      var frames := Frames(s, n);
      assert frames[..n - 1] == Frames(s, n - 1);
      var start := HEADER_SIZE + (n - 1) * FRAME_SIZE;
      assert s[HEADER_SIZE..start] + s[start..start + FRAME_SIZE] == s[HEADER_SIZE..start + FRAME_SIZE];
    }
  }

  function PacketOf(s: seq<byte>): Packet
    requires Complete(s)
  {
    FramesLieInPacket(s);
    Packet(U32(s[4..8]), U16(s[12..14]), Head(s), s[HEADER_SIZE + Count(s) * FRAME_SIZE..PacketSize(s)])
  }

  lemma HeaderIsPrint(s: seq<byte>, p: Packet)
    requires Complete(s) && p.Valid() && p.Length() == Len(s) && p.seqNo == U32(s[4..8]) && p.kind == U16(s[12..14])
    ensures Header(p) == s[..HEADER_SIZE]
  {
    Le32UndoesU32(s[4..8]);
    Le32UndoesU32(s[8..12]);
    Le16UndoesU16(s[12..14]);
    Le16UndoesU16(s[14..16]);
    assert Header(p) == s[..4] + s[4..8] + s[8..12] + s[12..14] + s[14..16];
    assert s[..4] + s[4..8] + s[8..12] + s[12..14] + s[14..16] == s[..HEADER_SIZE];
  }

  lemma PacketIsPrint(s: seq<byte>)
    requires Complete(s)
    ensures PacketOf(s).Valid() && Print(PacketOf(s)) == s[..PacketSize(s)]
  {
    FramesLieInPacket(s);
    var p, end := PacketOf(s), HEADER_SIZE + Count(s) * FRAME_SIZE;
    Le32UndoesU32(s[4..8]);
    Le16UndoesU16(s[12..14]);
    BodyOfFrames(s, Count(s));
    HeaderIsPrint(s, p);
    hide HeaderOk, Header, Body;
    assert s[..HEADER_SIZE] + s[HEADER_SIZE..end] + s[end..PacketSize(s)] == s[..PacketSize(s)];
  }

  lemma PrintAllOfCons(p: Packet, ps: seq<Packet>)
    requires p.Valid() && forall q :: q in ps ==> q.Valid()
    ensures forall q :: q in [p] + ps ==> q.Valid()
    ensures PrintAll([p] + ps) == Print(p) + PrintAll(ps) && AllFrames([p] + ps) == p.frames + AllFrames(ps)
  {
    hide Print;
    assert ([p] + ps)[1..] == ps;
  }

  /** A stream is accepted only if it is the print of valid packets, whose frames are logged, and an incomplete rest. */
  lemma {:induction false} AcceptedIsPrinted(s: seq<byte>) returns (ps: seq<Packet>)
    requires Parse(s).ok
    ensures forall p :: p in ps ==> p.Valid()
    ensures s == PrintAll(ps) + Parse(s).rest && Parse(s).frames == AllFrames(ps)
    decreases |s|
  {
    hide Complete, HeaderOk, PacketSize, Head, Parse, Print, PacketOf, AllFrames;
    if !Complete(s) {
      ParseIncomplete(s);
      ps := [];
      assert AllFrames(ps) == [] by { NoFrames(); }
    } else {
      hide PrintAll;
      ParseComplete(s);
      PacketIsPrint(s);
      PacketHoldsHead(s);
      var size := PacketSize(s);
      var more := AcceptedIsPrinted(s[size..]);
      ps := [PacketOf(s)] + more;
      PrintAllOfCons(PacketOf(s), more);
      assert s == s[..size] + s[size..];
    }
  }

  lemma PacketHoldsHead(s: seq<byte>)
    requires Complete(s)
    ensures PacketOf(s).frames == Head(s)
  {
    hide Complete, Head;
  }

  lemma NoFrames()
    ensures AllFrames([]) == []
  {
  }
}
