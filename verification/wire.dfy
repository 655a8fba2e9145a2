// The wire format of the mock Postgres server (fixtures/shared/src/mock-postgres-server.ts):
// big-endian encoders for messages, and the loop that walks the messages of a chunk. The
// format is that of section 55.7, "Message Formats", of the PostgreSQL 16 documentation.

module Wire {
  import opened Common

  type Byte = b: int | 0 <= b < 256

  type Bytes = seq<Byte>

  const INT16_MAX: int := 0x7FFF
  const INT32_MAX: int := 0x7FFF_FFFF

  // ---------------------------------------------------------------- integers

  function Int16(n: int): (b: Bytes)
    requires -0x8000 <= n <= INT16_MAX
    ensures |b| == 2
  {
    var u := if n < 0 then n + 0x1_0000 else n;
    [u / 0x100, u % 0x100]
  }

  function Int32(n: int): (b: Bytes)
    requires -0x8000_0000 <= n <= INT32_MAX
    ensures |b| == 4
  {
    var u := if n < 0 then n + 0x1_0000_0000 else n;
    [u / 0x100_0000, u / 0x1_0000 % 0x100, u / 0x100 % 0x100, u % 0x100]
  }

  function ReadInt16(b: Bytes, at: nat): int
    requires at + 2 <= |b|
  {
    var u: int := (b[at] as int) * 0x100 + (b[at + 1] as int);
    if u > INT16_MAX then u - 0x1_0000 else u
  }

  function ReadInt32(b: Bytes, at: nat): int
    requires at + 4 <= |b|
  {
    var u: int := (b[at] as int) * 0x100_0000 + (b[at + 1] as int) * 0x1_0000 + (b[at + 2] as int) * 0x100 + (b[at + 3] as int);
    if u > INT32_MAX then u - 0x1_0000_0000 else u
  }

  lemma Int16RoundTrip(b: Bytes, at: nat, n: int)
    requires -0x8000 <= n <= INT16_MAX && at + 2 <= |b| && b[at..at + 2] == Int16(n)
    ensures ReadInt16(b, at) == n
  {
    assert b[at] == Int16(n)[0] && b[at + 1] == Int16(n)[1];
  }

  lemma Int32RoundTrip(b: Bytes, at: nat, n: int)
    requires -0x8000_0000 <= n <= INT32_MAX && at + 4 <= |b| && b[at..at + 4] == Int32(n)
    ensures ReadInt32(b, at) == n
    ensures (b[at] as int) * 0x100_0000 + (b[at + 1] as int) * 0x1_0000 + (b[at + 2] as int) * 0x100 + (b[at + 3] as int)
      == if n < 0 then n + 0x1_0000_0000 else n
  {
    var e := Int32(n);
    assert b[at] == e[0] && b[at + 1] == e[1] && b[at + 2] == e[2] && b[at + 3] == e[3];
    FourBytes(if n < 0 then n + 0x1_0000_0000 else n);
  }

  lemma FourBytes(u: int)
    ensures u / 0x100_0000 * 0x100_0000 + u / 0x1_0000 % 0x100 * 0x1_0000 + u / 0x100 % 0x100 * 0x100 + u % 0x100 == u
  {
    assert u / 0x100 == u / 0x1_0000 * 0x100 + u / 0x100 % 0x100;
    assert u / 0x1_0000 == u / 0x100_0000 * 0x100 + u / 0x1_0000 % 0x100;
  }

  // ---------------------------------------------------------------- frames

  datatype Frame = Frame(msgType: Byte, payload: Bytes)

  predicate Fits(f: Frame) {
    4 + |f.payload| <= INT32_MAX
  }

  /** type, then the length including itself but not the type, then the payload */
  function Encode(f: Frame): (b: Bytes)
    requires Fits(f)
    ensures |b| == 5 + |f.payload|
  {
    [f.msgType] + Int32(4 + |f.payload|) + f.payload
  }

  function EncodeAll(frames: seq<Frame>): Bytes
    requires forall f :: f in frames ==> Fits(f)
  {
    if frames == [] then [] else Encode(frames[0]) + EncodeAll(frames[1..])
  }

  method WriteInt32BE(buf: array<Byte>, value: int, at: nat)
    requires -0x8000_0000 <= value <= INT32_MAX && at + 4 <= buf.Length
    modifies buf
    ensures buf[..] == old(buf[..at]) + Int32(value) + old(buf[at + 4..])
  {
    var e := Int32(value);
    buf[at], buf[at + 1], buf[at + 2], buf[at + 3] := e[0], e[1], e[2], e[3];
  }

  /** Builds a message in a buffer of its final size; a length that is no int32 is an error. */
  method PgMsg(msgType: Byte, payload: Bytes) returns (r: Option<Bytes>)
    ensures r == if Fits(Frame(msgType, payload)) then Some(Encode(Frame(msgType, payload))) else None
  {
    var len := 4 + |payload|;
    if len > INT32_MAX {
      return None;
    }
    var buf := new Byte[1 + 4 + |payload|](_ => 0);
    buf[0] := msgType;
    WriteInt32BE(buf, len, 1);
    assert buf[..5] == [msgType] + Int32(len);
    for i := 0 to |payload|
      invariant buf[..5] == [msgType] + Int32(len)
      invariant buf[5..5 + i] == payload[..i]
    {
      buf[5 + i] := payload[i];
      assert buf[5..5 + i + 1] == buf[5..5 + i] + [payload[i]];
    }
    assert buf[..] == buf[..5] + buf[5..5 + |payload|];
    assert payload[..|payload|] == payload;
    return Some(buf[..]);
  }

  // ---------------------------------------------------------------- the message loop

  const QUERY: Byte := 0x51
  const TERMINATE: Byte := 0x58

  /** One iteration at `offset`: the loop ends, the connection ends, or it goes on at `next`. */
  datatype Move = Stop | Close | Go(msgType: Byte, next: int)

  function Iterate(chunk: Bytes, offset: int): Move {
    if offset >= |chunk| || offset < 0 || offset + 5 > |chunk| then Stop
    else
      var msgType, msgLen := chunk[offset], ReadInt32(chunk, offset + 1);
      if msgType == TERMINATE then Close else Go(msgType, offset + 1 + msgLen)
  }

  datatype Outcome = Finished | Closed | Running

  /** The messages that at most `fuel` iterations go past, as (type, start, end), and how it
      stands then. */
  function Walk(chunk: Bytes, offset: int, fuel: nat): (seq<(Byte, int, int)>, Outcome)
    decreases fuel
  {
    match Iterate(chunk, offset)
    case Stop => ([], Finished)
    case Close => ([], Closed)
    case Go(msgType, next) =>
      if fuel == 0 then ([], Running)
      else
        var (visited, outcome) := Walk(chunk, next, fuel - 1);
        ([(msgType, offset, next)] + visited, outcome)
  }

  /** Where the frames lie if the first starts at `start`. */
  function Places(frames: seq<Frame>, start: int): seq<(Byte, int, int)> {
    if frames == [] then []
    else
      var end := start + 5 + |frames[0].payload|;
      [(frames[0].msgType, start, end)] + Places(frames[1..], end)
  }

  /** The frames before the first Terminate message. */
  function BeforeTerminate(frames: seq<Frame>): seq<Frame> {
    if frames == [] || frames[0].msgType == TERMINATE then [] else [frames[0]] + BeforeTerminate(frames[1..])
  }

  /** The loop visits exactly the frames of a chunk, in order, up to the first Terminate. */
  lemma {:induction false} WalkVisitsFrames(before: Bytes, frames: seq<Frame>, fuel: nat)
    requires forall f :: f in frames ==> Fits(f)
    requires fuel >= |frames|
    ensures Walk(before + EncodeAll(frames), |before|, fuel) ==
      (Places(BeforeTerminate(frames), |before|),
       if BeforeTerminate(frames) == frames then Finished else Closed)
    decreases fuel
  {
    var chunk := before + EncodeAll(frames);
    if frames == [] {
    } else {
      var f, rest := frames[0], frames[1..];
      FrameHeader(before, f, EncodeAll(rest));
      assert chunk == before + (Encode(f) + EncodeAll(rest));
      if f.msgType != TERMINATE {
        assert chunk == (before + Encode(f)) + EncodeAll(rest);
        WalkVisitsFrames(before + Encode(f), rest, fuel - 1);
        assert BeforeTerminate(frames)[1..] == BeforeTerminate(rest);
        assert BeforeTerminate(frames) == frames <==> BeforeTerminate(rest) == rest by {
          assert frames == [f] + rest;
        }
      }
    }
  }

  lemma FrameHeader(before: Bytes, f: Frame, after: Bytes)
    requires Fits(f)
    ensures var chunk := before + (Encode(f) + after);
      Iterate(chunk, |before|) == if f.msgType == TERMINATE then Close else Go(f.msgType, |before| + 5 + |f.payload|)
  {
    var chunk := before + (Encode(f) + after);
    assert chunk[|before|] == f.msgType;
    assert chunk[|before| + 1..|before| + 1 + 4] == Int32(4 + |f.payload|);
    Int32RoundTrip(chunk, |before| + 1, 4 + |f.payload|);
  }

  /** The bytes at a frame's place are the frame. */
  lemma {:induction false} PlacesHoldFrames(before: Bytes, frames: seq<Frame>, i: nat)
    requires forall f :: f in frames ==> Fits(f)
    requires i < |frames|
    ensures |Places(frames, |before|)| == |frames|
    ensures var (msgType, start, end) := Places(frames, |before|)[i];
      0 <= start <= end <= |before + EncodeAll(frames)| && (before + EncodeAll(frames))[start..end] == Encode(frames[i])
    decreases i
  {
    var f, rest := frames[0], frames[1..];
    assert before + EncodeAll(frames) == (before + Encode(f)) + EncodeAll(rest);
    PlacesLength(rest, |before + Encode(f)|);
    if i == 0 {
    } else {
      PlacesHoldFrames(before + Encode(f), rest, i - 1);
    }
  }

  lemma {:induction false} PlacesLength(frames: seq<Frame>, start: int)
    ensures |Places(frames, start)| == |frames|
  {
    if frames == [] {
    } else {
      PlacesLength(frames[1..], start + 5 + |frames[0].payload|);
    }
  }

  /** The loop comes to an end on this chunk. */
  ghost predicate Halts(chunk: Bytes, offset: int) {
    exists fuel: nat :: !Walk(chunk, offset, fuel).1.Running?
  }

  /** No message that the loop comes to has a negative length. */
  predicate NonNegativeLengths(chunk: Bytes, offset: nat)
    decreases |chunk| - offset
  {
    var move := Iterate(chunk, offset);
    move.Go? ==> move.next > offset && NonNegativeLengths(chunk, move.next)
  }

  /** Then the loop ends, after no more iterations than there are bytes. */
  lemma {:induction false} HaltsOnLengths(chunk: Bytes, offset: nat)
    requires NonNegativeLengths(chunk, offset)
    ensures !Walk(chunk, offset, if offset < |chunk| then |chunk| - offset else 0).1.Running?
    decreases |chunk| - offset
  {
    match Iterate(chunk, offset) {
      case Go(_, next) =>
        HaltsOnLengths(chunk, next);
        MoreFuel(chunk, next, if next < |chunk| then |chunk| - next else 0, |chunk| - offset - 1);
      case _ =>
    }
  }

  lemma {:induction false} MoreFuel(chunk: Bytes, offset: int, fuel: nat, more: nat)
    requires fuel <= more && !Walk(chunk, offset, fuel).1.Running?
    ensures !Walk(chunk, offset, more).1.Running?
    decreases fuel
  {
    match Iterate(chunk, offset) {
      case Go(_, next) => MoreFuel(chunk, next, fuel - 1, more - 1);
      case _ =>
    }
  }

  /** A length of -1 keeps the loop where it is, for ever. */
  lemma StuckOnMinusOne(chunk: Bytes, offset: nat)
    requires offset + 5 <= |chunk| && chunk[offset] != TERMINATE && ReadInt32(chunk, offset + 1) == -1
    ensures !Halts(chunk, offset)
  {
    forall fuel: nat ensures Walk(chunk, offset, fuel).1.Running? {
      StuckFor(chunk, offset, fuel);
    }
  }

  lemma {:induction false} StuckFor(chunk: Bytes, offset: nat, fuel: nat)
    requires offset + 5 <= |chunk| && chunk[offset] != TERMINATE && ReadInt32(chunk, offset + 1) == -1
    ensures Walk(chunk, offset, fuel).1.Running?
  {
    if fuel == 0 {
    } else {
      StuckFor(chunk, offset, fuel - 1);
    }
  }

  /** What is seen from the i-th message on is what a walk from there sees. */
  lemma {:induction false} WalkFrom(chunk: Bytes, offset: int, fuel: nat, i: nat)
    requires !Walk(chunk, offset, fuel).1.Running? && i < |Walk(chunk, offset, fuel).0|
    ensures var at := Walk(chunk, offset, fuel).0[i].1;
      0 <= at < |chunk| && i < fuel && Walk(chunk, at, fuel - i) == (Walk(chunk, offset, fuel).0[i..], Walk(chunk, offset, fuel).1)
    decreases fuel
  {
    var next, rest := Iterate(chunk, offset).next, Walk(chunk, Iterate(chunk, offset).next, fuel - 1);
    var visited := Walk(chunk, offset, fuel).0;
    assert visited[1..] == rest.0;
    if i == 0 {
    } else {
      WalkFrom(chunk, next, fuel - 1, i - 1);
      assert visited[i..] == rest.0[i - 1..];
    }
  }

  lemma {:induction false} OneEnd(chunk: Bytes, offset: int, fuel: nat, other: nat)
    requires !Walk(chunk, offset, fuel).1.Running? && !Walk(chunk, offset, other).1.Running?
    ensures Walk(chunk, offset, fuel) == Walk(chunk, offset, other)
    decreases fuel
  {
    match Iterate(chunk, offset) {
      case Go(_, next) => OneEnd(chunk, next, fuel - 1, other - 1);
      case _ =>
    }
  }

  lemma {:induction false} EnoughFuel(chunk: Bytes, offset: int, fuel: nat)
    requires !Walk(chunk, offset, fuel).1.Running?
    ensures !Walk(chunk, offset, |Walk(chunk, offset, fuel).0|).1.Running?
    decreases fuel
  {
    match Iterate(chunk, offset) {
      case Go(_, next) => EnoughFuel(chunk, next, fuel - 1);
      case _ =>
    }
  }

  /** A walk that ends never comes to the same offset twice: it would go round for ever. */
  lemma NoOffsetTwice(chunk: Bytes, offset: int, fuel: nat, i: nat, j: nat)
    requires !Walk(chunk, offset, fuel).1.Running? && i < j < |Walk(chunk, offset, fuel).0|
    ensures Walk(chunk, offset, fuel).0[i].1 != Walk(chunk, offset, fuel).0[j].1
  {
    var visited := Walk(chunk, offset, fuel).0;
    WalkFrom(chunk, offset, fuel, i);
    WalkFrom(chunk, offset, fuel, j);
    assert |visited[i..]| != |visited[j..]|;
    if visited[i].1 == visited[j].1 {
      OneEnd(chunk, visited[i].1, fuel - i, fuel - j);
    }
  }

  /** The loop ends after as many iterations as there are bytes, or never. */
  lemma EndsSoonOrNever(chunk: Bytes, offset: int)
    ensures Halts(chunk, offset) <==> !Walk(chunk, offset, |chunk|).1.Running?
  {
    if fuel: nat :| !Walk(chunk, offset, fuel).1.Running? {
      var visited := Walk(chunk, offset, fuel).0;
      var starts := seq(|visited|, i requires 0 <= i < |visited| => visited[i].1);
      forall i, j | 0 <= i < j < |starts| ensures starts[i] != starts[j] {
        NoOffsetTwice(chunk, offset, fuel, i, j);
      }
      forall i | 0 <= i < |starts| ensures 0 <= starts[i] < |chunk| {
        WalkFrom(chunk, offset, fuel, i);
      }
      FewDistinct(starts, |chunk|);
      EnoughFuel(chunk, offset, fuel);
      MoreFuel(chunk, offset, |visited|, |chunk|);
    }
  }

  /** Two messages that the loop visits start at the same offset. */
  ghost predicate Revisits(chunk: Bytes, offset: int, fuel: nat) {
    var visited := Walk(chunk, offset, fuel).0;
    exists i, j :: 0 <= i < j < |visited| && visited[i].1 == visited[j].1
  }

  /** The loop never ends if and only if it comes back to an offset. */
  lemma NeverEndsIffRevisits(chunk: Bytes, offset: int)
    ensures !Halts(chunk, offset) <==> exists fuel: nat :: Revisits(chunk, offset, fuel)
  {
    if fuel: nat :| Revisits(chunk, offset, fuel) {
      forall more: nat ensures Walk(chunk, offset, more).1.Running? {
        RevisitRuns(chunk, offset, fuel, more);
      }
    } else {
      RunsOn(chunk, offset, |chunk| + 1);
      EndsSoonOrNever(chunk, offset);
      if Walk(chunk, offset, |chunk| + 1).1.Running? {
        var visited := Walk(chunk, offset, |chunk| + 1).0;
        var starts := seq(|visited|, i requires 0 <= i < |visited| => visited[i].1);
        assert !Revisits(chunk, offset, |chunk| + 1);
        FewDistinct(starts, |chunk|);
      }
    }
  }

  lemma {:induction false} RunsOn(chunk: Bytes, offset: int, fuel: nat)
    ensures Walk(chunk, offset, fuel).1.Running? ==> |Walk(chunk, offset, fuel).0| == fuel
    ensures forall i :: 0 <= i < |Walk(chunk, offset, fuel).0| ==> 0 <= Walk(chunk, offset, fuel).0[i].1 < |chunk|
    decreases fuel
  {
    match Iterate(chunk, offset) {
      case Go(_, next) =>
        if fuel == 0 {
        } else {
          RunsOn(chunk, next, fuel - 1);
        }
      case _ =>
    }
  }

  lemma RevisitRuns(chunk: Bytes, offset: int, fuel: nat, more: nat)
    requires Revisits(chunk, offset, fuel)
    ensures Walk(chunk, offset, more).1.Running?
  {
    if !Walk(chunk, offset, more).1.Running? {
      WalkSofar(chunk, offset, fuel, more);
      var visited := Walk(chunk, offset, fuel).0;
      var i, j :| 0 <= i < j < |visited| && visited[i].1 == visited[j].1;
      NoOffsetTwice(chunk, offset, more, i, j);
    }
  }

  /** What is visited first is visited in the end. */
  lemma {:induction false} WalkSofar(chunk: Bytes, offset: int, fuel: nat, more: nat)
    requires !Walk(chunk, offset, more).1.Running?
    ensures Walk(chunk, offset, fuel).0 <= Walk(chunk, offset, more).0
    decreases fuel
  {
    match Iterate(chunk, offset) {
      case Go(_, next) =>
        if fuel == 0 {
        } else {
          WalkSofar(chunk, next, fuel - 1, more - 1);
        }
      case _ =>
    }
  }

  /** A query, and a message whose length of -6 leads back to it. */
  const ROUND: Bytes := [QUERY, 0x00, 0x00, 0x00, 0x04, QUERY, 0xFF, 0xFF, 0xFF, 0xFA]

  /** Lengths below -1 can go back: this chunk is read round and round. */
  lemma GoesRound()
    ensures !Halts(ROUND, 0)
  {
    assert Iterate(ROUND, 0) == Go(QUERY, 5) && Iterate(ROUND, 5) == Go(QUERY, 0);
    assert Walk(ROUND, 5, 2).0 == [(QUERY, 5, 0)] + Walk(ROUND, 0, 1).0;
    assert Walk(ROUND, 0, 3).0 == [(QUERY, 0, 5)] + Walk(ROUND, 5, 2).0;
    var visited := Walk(ROUND, 0, 3).0;
    assert visited[0].1 == visited[2].1;
    assert Revisits(ROUND, 0, 3);
    NeverEndsIffRevisits(ROUND, 0);
  }

  lemma {:induction false} FewDistinct(s: seq<int>, n: nat)
    requires forall i, j :: 0 <= i < j < |s| ==> s[i] != s[j]
    requires forall i :: 0 <= i < |s| ==> 0 <= s[i] < n
    ensures |s| <= n
  {
    if s == [] {
    } else {
      assert 0 <= s[0] < n;
      var k := if i :| 0 <= i < |s| && s[i] == n - 1 then i else |s| - 1;
      FewDistinct(s[..k] + s[k + 1..], n - 1);
    }
  }

  // ---------------------------------------------------------------- the connection

  const SSL_REQUEST: Bytes := [0x00, 0x00, 0x00, 0x08, 0x04, 0xd2, 0x16, 0x2f]
  const PROTOCOL_VERSION: int := 196608

  predicate IsStartup(chunk: Bytes) {
    |chunk| >= 8 && ReadInt32(chunk, 4) == PROTOCOL_VERSION
  }

  /** One reply per query message visited. */
  function Replies(visited: seq<(Byte, int, int)>, reply: Bytes): seq<Bytes> {
    if visited == [] then []
    else (if visited[0].0 == QUERY then [reply] else []) + Replies(visited[1..], reply)
  }

  lemma WalkOn(chunk: Bytes, offset: int, left: nat, sent: seq<Bytes>, reply: Bytes)
    requires left > 0 && Iterate(chunk, offset).Go?
    ensures var next := Iterate(chunk, offset).next;
      && Walk(chunk, offset, left).1 == Walk(chunk, next, left - 1).1
      && sent + Replies(Walk(chunk, offset, left).0, reply) ==
         sent + (if Iterate(chunk, offset).msgType == QUERY then [reply] else []) + Replies(Walk(chunk, next, left - 1).0, reply)
  {
    var visited, rest := Walk(chunk, offset, left).0, Walk(chunk, Iterate(chunk, offset).next, left - 1).0;
    assert visited[1..] == rest;
  }

  /** The codes that PostgreSQL gives these packets: 1234 and 5679, and version 3.0. */
  lemma RequestCodes()
    ensures |SSL_REQUEST| == 8 && ReadInt32(SSL_REQUEST, 0) == 8 && ReadInt32(SSL_REQUEST, 4) == 1234 * 0x1_0000 + 5679
    ensures PROTOCOL_VERSION == 3 * 0x1_0000 + 0
  {
  }

  class Connection {
    const startupReply: Bytes
    const queryReply: Bytes
    var startupHandled: bool
    var sent: seq<Bytes>
    var ended: bool

    constructor (startupReply: Bytes, queryReply: Bytes)
      ensures this.startupReply == startupReply && this.queryReply == queryReply
      ensures !startupHandled && sent == [] && !ended
    {
      this.startupReply, this.queryReply := startupReply, queryReply;
      startupHandled, sent, ended := false, [], false;
    }

    /** The handler of a chunk of data. Its loop may never end, so this is what it has done when
        the loop has made at most the given number of iterations, and whether it is still in it. */
    method OnData(chunk: Bytes, iterations: nat) returns (outcome: Outcome)
      modifies this
      ensures chunk == SSL_REQUEST ==>
        outcome.Finished? && sent == old(sent) + [[0x4E]] && startupHandled == old(startupHandled) && ended == old(ended)
      ensures chunk != SSL_REQUEST && !old(startupHandled) && IsStartup(chunk) ==>
        outcome.Finished? && sent == old(sent) + [startupReply] && startupHandled && ended == old(ended)
      ensures chunk != SSL_REQUEST && (old(startupHandled) || !IsStartup(chunk)) ==>
        && outcome == Walk(chunk, 0, iterations).1
        && sent == old(sent) + Replies(Walk(chunk, 0, iterations).0, queryReply)
        && startupHandled == old(startupHandled)
        && ended == (old(ended) || outcome.Closed?)
    {
      if chunk == SSL_REQUEST {
        sent := sent + [[0x4E]];
        return Finished;
      }
      if !startupHandled && |chunk| >= 8 && ReadInt32(chunk, 4) == PROTOCOL_VERSION {
        startupHandled := true;
        sent := sent + [startupReply];
        return Finished;
      }
      outcome := ReadMessages(chunk, iterations);
    }

    /** The loop over the messages of a chunk. */
    method ReadMessages(chunk: Bytes, iterations: nat) returns (outcome: Outcome)
      modifies this
      ensures outcome == Walk(chunk, 0, iterations).1
      ensures sent == old(sent) + Replies(Walk(chunk, 0, iterations).0, queryReply)
      ensures startupHandled == old(startupHandled) && ended == (old(ended) || outcome.Closed?)
    {
      var offset: int, left: nat := 0, iterations;
      while offset < |chunk|
        invariant left <= iterations
        invariant Walk(chunk, offset, left).1 == Walk(chunk, 0, iterations).1
        invariant sent + Replies(Walk(chunk, offset, left).0, queryReply) == old(sent) + Replies(Walk(chunk, 0, iterations).0, queryReply)
        invariant startupHandled == old(startupHandled) && ended == old(ended)
        decreases left
      {
        if offset < 0 || offset + 5 > |chunk| {
          break;
        }
        var msgType := chunk[offset];
        var msgEnd := offset + 1 + ReadInt32(chunk, offset + 1);
        if msgType == TERMINATE {
          ended := true;
          return Closed;
        }
        if left == 0 {
          return Running;
        }
        WalkOn(chunk, offset, left, sent, queryReply);
        if msgType == QUERY {
          sent := sent + [queryReply];
        }
        offset, left := msgEnd, left - 1;
      }
      outcome := Finished;
    }

    /** After startup, a chunk of whole frames gets one reply for each query before the first
        Terminate, and ends the connection if and only if there is a Terminate. */
    method OnFrames(frames: seq<Frame>)
      requires startupHandled && forall f :: f in frames ==> Fits(f)
      modifies this
      ensures sent == old(sent) + seq(|Queries(BeforeTerminate(frames))|, _ => queryReply)
      ensures ended <==> old(ended) || exists f :: f in frames && f.msgType == 'X' as int
      ensures startupHandled
    {
      FramesAreNoSslRequest(frames);
      FramesServed(frames, queryReply);
      var outcome := OnData(EncodeAll(frames), |frames|);
    }
  }

  /** The query messages among the frames. */
  function Queries(frames: seq<Frame>): seq<Frame> {
    if frames == [] then []
    else (if frames[0].msgType == QUERY then [frames[0]] else []) + Queries(frames[1..])
  }

  /** The frames before the first message of type X, which are all if there is none. */
  lemma {:induction false} StopsAtFirstX(frames: seq<Frame>)
    ensures BeforeTerminate(frames) <= frames
    ensures forall f :: f in BeforeTerminate(frames) ==> f.msgType != 'X' as int
    ensures |BeforeTerminate(frames)| < |frames| ==> frames[|BeforeTerminate(frames)|].msgType == 'X' as int
  {
    if frames == [] || frames[0].msgType == TERMINATE {
    } else {
      StopsAtFirstX(frames[1..]);
      assert frames == [frames[0]] + frames[1..];
    }
  }

  lemma Regroup<T>(a: seq<T>, b: seq<T>, c: seq<T>)
    ensures a + (b + c) == a + b + c
  {
  }

  lemma FirstOf<T>(s: seq<T>, last: T)
    requires s != []
    ensures (s + [last])[0] == s[0] && (s + [last])[1..] == s[1..] + [last]
  {
  }

  lemma {:induction false} QueriesSnoc(frames: seq<Frame>, last: Frame)
    ensures Queries(frames + [last]) == Queries(frames) + if last.msgType == QUERY then [last] else []
  {
    var all := frames + [last];
    if frames == [] {
      assert all[1..] == [] && Queries([]) == [];
    } else {
      QueriesSnoc(frames[1..], last);
      FirstOf(frames, last);
      Regroup(if frames[0].msgType == QUERY then [frames[0]] else [], Queries(frames[1..]), if last.msgType == QUERY then [last] else []);
    }
  }

  /** The messages that are answered are exactly those of type Q, in order. */
  lemma {:induction false} QueriesAreQ(frames: seq<Frame>)
    ensures PickedFrom(Queries(frames), frames, (f: Frame) => f.msgType == 'Q' as int, (f: Frame) => f)
  {
    var isQuery, same := (f: Frame) => f.msgType == 'Q' as int, (f: Frame) => f;
    if frames == [] {
      PickNone(isQuery, same);
    } else {
      var init, last := frames[..|frames| - 1], frames[|frames| - 1];
      QueriesAreQ(init);
      QueriesSnoc(init, last);
      PickNext(Queries(init), init, last, isQuery, same);
      assert frames == init + [last];
    }
  }

  /** What the message loop makes of a chunk of whole frames. */
  lemma FramesServed(frames: seq<Frame>, reply: Bytes)
    requires forall f :: f in frames ==> Fits(f)
    ensures Replies(Walk(EncodeAll(frames), 0, |frames|).0, reply) == seq(|Queries(BeforeTerminate(frames))|, _ => reply)
    ensures Walk(EncodeAll(frames), 0, |frames|).1.Closed? <==> exists f :: f in frames && f.msgType == 'X' as int
  {
    assert [] + EncodeAll(frames) == EncodeAll(frames);
    WalkVisitsFrames([], frames, |frames|);
    OneReplyEach(BeforeTerminate(frames), 0, reply);
    TerminateStops(frames);
  }

  lemma {:induction false} OneReplyEach(frames: seq<Frame>, start: int, reply: Bytes)
    ensures Replies(Places(frames, start), reply) == seq(|Queries(frames)|, _ => reply)
  {
    if frames == [] {
    } else {
      var end := start + 5 + |frames[0].payload|;
      OneReplyEach(frames[1..], end, reply);
      assert Places(frames, start)[1..] == Places(frames[1..], end);
    }
  }

  lemma {:induction false} TerminateStops(frames: seq<Frame>)
    ensures BeforeTerminate(frames) != frames <==> exists f :: f in frames && f.msgType == 'X' as int
  {
    if frames == [] {
    } else if frames[0].msgType == TERMINATE {
      assert frames[0] in frames;
    } else {
      TerminateStops(frames[1..]);
      assert frames == [frames[0]] + frames[1..];
      assert BeforeTerminate(frames)[1..] == BeforeTerminate(frames[1..]);
    }
  }

  /** A chunk of whole frames is never taken for an SSL request. */
  lemma FramesAreNoSslRequest(frames: seq<Frame>)
    requires forall f :: f in frames ==> Fits(f)
    ensures EncodeAll(frames) != SSL_REQUEST
  {
    if frames != [] {
      var chunk := EncodeAll(frames);
      assert Fits(frames[0]);
      assert chunk[1..1 + 4] == Int32(4 + |frames[0].payload|);
      Int32RoundTrip(chunk, 1, 4 + |frames[0].payload|);
      assert |chunk| >= 5 + |frames[0].payload|;
    }
  }

  // ---------------------------------------------------------------- rows

  /** One column of a RowDescription as a reader sees it. */
  datatype Field = Field(name: Bytes, tableOid: int, attribute: int, typeOid: int, size: int, modifier: int, format: int)

  /** A text column (type OID 25), which is how the server describes every column. */
  function TextField(name: Bytes): Field {
    Field(name, 0, 0, 25, -1, -1, 0)
  }

  function Meta(): (meta: Bytes)
    ensures |meta| == 18
  {
    Int32(0) + Int16(0) + Int32(25) + Int16(-1) + Int32(-1) + Int16(0)
  }

  function Column(name: Bytes): Bytes {
    name + ([0] + Meta())
  }

  function Columns(names: seq<Bytes>): (parts: seq<Bytes>)
    ensures |parts| == |names| && forall i :: 0 <= i < |names| ==> parts[i] == Column(names[i])
  {
    if names == [] then [] else Columns(names[..|names| - 1]) + [Column(names[|names| - 1])]
  }

  predicate Sized(v: Bytes) {
    |v| <= INT32_MAX
  }

  /** The values fit the counters of a DataRow. */
  predicate AllSized(values: seq<Bytes>) {
    |values| <= INT16_MAX && forall i :: 0 <= i < |values| ==> Sized(values[i])
  }

  /** A value with its length in front. */
  function Value(v: Bytes): Bytes {
    if Sized(v) then Int32(|v|) + v else []
  }

  function Values(values: seq<Bytes>): (parts: seq<Bytes>)
    ensures |parts| == |values| && forall i :: 0 <= i < |values| ==> parts[i] == Value(values[i])
  {
    if values == [] then [] else Values(values[..|values| - 1]) + [Value(values[|values| - 1])]
  }

  /** The payload of a RowDescription; too many columns are an error. */
  method RowDescriptionPayload(columns: seq<Bytes>) returns (r: Option<Bytes>)
    ensures r == if |columns| <= INT16_MAX then Some(Int16(|columns|) + Flatten(Columns(columns))) else None
  {
    if |columns| > INT16_MAX {
      return None;
    }
    var parts: seq<Bytes> := [];
    for i := 0 to |columns|
      invariant parts == Columns(columns[..i])
    {
      assert columns[..i + 1][..i] == columns[..i];
      var meta := MetaBuffer();
      parts := parts + [columns[i] + ([0] + meta)];
    }
    assert columns[..|columns|] == columns;
    return Some(Int16(|columns|) + Flatten(parts));
  }

  method MetaBuffer() returns (bytes: Bytes)
    ensures bytes == Meta()
  {
    var meta := new Byte[18](_ => 0);
    WriteInt32BE(meta, 0, 0);
    WriteInt16BE(meta, 0, 4);
    WriteInt32BE(meta, 25, 6);
    assert meta[..10] == Int32(0) + Int16(0) + Int32(25);
    WriteInt16BE(meta, -1, 10);
    WriteInt32BE(meta, -1, 12);
    WriteInt16BE(meta, 0, 16);
    return meta[..];
  }

  method WriteInt16BE(buf: array<Byte>, value: int, at: nat)
    requires -0x8000 <= value <= INT16_MAX && at + 2 <= buf.Length
    modifies buf
    ensures buf[..] == old(buf[..at]) + Int16(value) + old(buf[at + 2..])
  {
    var e := Int16(value);
    buf[at], buf[at + 1] := e[0], e[1];
  }

  /** The payload of a DataRow; too many or too long values are an error. */
  method DataRowPayload(values: seq<Bytes>) returns (r: Option<Bytes>)
    ensures r.Some? <==> AllSized(values)
    ensures r.Some? ==> r.value == Int16(|values|) + Flatten(Values(values))
  {
    if |values| > INT16_MAX {
      return None;
    }
    var parts: seq<Bytes> := [];
    for i := 0 to |values|
      invariant forall k :: 0 <= k < i ==> Sized(values[k])
      invariant parts == Values(values[..i])
    {
      if !(|values[i]| <= INT32_MAX) {
        return None;
      }
      assert values[..i + 1][..i] == values[..i];
      parts := parts + [Int32(|values[i]|) + values[i]];
    }
    assert values[..|values|] == values;
    return Some(Int16(|values|) + Flatten(parts));
  }

  method RowDescription(columns: seq<Bytes>) returns (r: Option<Bytes>)
    ensures r.Some? <==> |columns| <= INT16_MAX && Fits(Frame(0x54, Int16(|columns|) + Flatten(Columns(columns))))
    ensures r.Some? ==> r.value == Encode(Frame(0x54, Int16(|columns|) + Flatten(Columns(columns))))
  {
    var payload := RowDescriptionPayload(columns);
    if payload.None? {
      return None;
    }
    r := PgMsg(0x54, payload.value);
  }

  method DataRow(values: seq<Bytes>) returns (r: Option<Bytes>)
    ensures r.Some? <==> AllSized(values) && Fits(Frame(0x44, Int16(|values|) + Flatten(Values(values))))
    ensures r.Some? ==> r.value == Encode(Frame(0x44, Int16(|values|) + Flatten(Values(values))))
  {
    var payload := DataRowPayload(values);
    if payload.None? {
      return None;
    }
    r := PgMsg(0x44, payload.value);
  }

  /** The position of the first NUL at or after `at`. */
  function FindNul(b: Bytes, at: nat): (i: nat)
    requires at <= |b|
    ensures at <= i <= |b| && (i < |b| ==> b[i] == 0) && forall k :: at <= k < i ==> b[k] != 0
    decreases |b| - at
  {
    if at == |b| || b[at] == 0 then at else FindNul(b, at + 1)
  }

  /** Reads the next `n` columns, up to the end. */
  function ReadColumns(b: Bytes, n: nat): Option<seq<Field>>
    decreases n
  {
    if n == 0 then if b == [] then Some([]) else None
    else
      var nul := FindNul(b, 0);
      if nul + 19 > |b| then None
      else
        var rest := ReadColumns(b[nul + 19..], n - 1);
        if rest.None? then None else Some([ReadField(b[..nul], b[nul + 1..nul + 19])] + rest.value)
  }

  function ReadField(name: Bytes, meta: Bytes): Field
    requires |meta| == 18
  {
    Field(name, ReadInt32(meta, 0), ReadInt16(meta, 4), ReadInt32(meta, 6),
          ReadInt16(meta, 10), ReadInt32(meta, 12), ReadInt16(meta, 16))
  }

  /** Reads one value; the rest is what follows it. */
  function ReadValue(b: Bytes): Option<(Bytes, Bytes)> {
    if |b| < 4 || ReadInt32(b, 0) < 0 || 4 + ReadInt32(b, 0) > |b| then None
    else Some((b[4..4 + ReadInt32(b, 0)], b[4 + ReadInt32(b, 0)..]))
  }

  /** Reads the next `n` values, up to the end. */
  function ReadValues(b: Bytes, n: nat): Option<seq<Bytes>>
    decreases n
  {
    if n == 0 then if b == [] then Some([]) else None
    else
      var first := ReadValue(b);
      if first.None? then None
      else
        var rest := ReadValues(first.value.1, n - 1);
        if rest.None? then None else Some([first.value.0] + rest.value)
  }

  function ReadRowDescription(payload: Bytes): Option<seq<Field>> {
    if |payload| < 2 || ReadInt16(payload, 0) < 0 then None else ReadColumns(payload[2..], ReadInt16(payload, 0))
  }

  function ReadDataRow(payload: Bytes): Option<seq<Bytes>> {
    if |payload| < 2 || ReadInt16(payload, 0) < 0 then None else ReadValues(payload[2..], ReadInt16(payload, 0))
  }

  function TextFields(names: seq<Bytes>): seq<Field> {
    if names == [] then [] else [TextField(names[0])] + TextFields(names[1..])
  }

  lemma {:induction false} ReadColumnsBack(names: seq<Bytes>)
    requires forall i :: 0 <= i < |names| ==> 0 !in names[i]
    ensures ReadColumns(Flatten(Columns(names)), |names|) == Some(TextFields(names))
  {
    if names == [] {
    } else {
      FlattenFirst(Columns(names));
      assert Columns(names)[1..] == Columns(names[1..]);
      ReadOneColumn(names[0], Flatten(Columns(names[1..])));
      ReadColumnsBack(names[1..]);
    }
  }

  lemma ReadOneColumn(name: Bytes, rest: Bytes)
    requires 0 !in name
    ensures var b, nul := Column(name) + rest, |name|;
      && nul + 19 <= |b| && FindNul(b, 0) == nul && b[nul + 19..] == rest
      && ReadField(b[..nul], b[nul + 1..nul + 19]) == TextField(name)
  {
    var b, nul, tail := Column(name) + rest, |name|, [0] + Meta();
    assert b[..nul] == name;
    forall k | 0 <= k < nul ensures b[k] != 0 {
      assert b[k] == b[..nul][k];
    }
    assert b[nul..nul + 19] == tail;
    assert b[nul] == tail[0] && tail[1..19] == Meta();
    SliceOfSlice(b, nul, 19, 1, 18);
    ReadMeta();
  }

  lemma ReadMeta()
    ensures forall name :: ReadField(name, Meta()) == TextField(name)
  {
    var meta := Meta();
    assert meta[0..0 + 4] == Int32(0) && meta[4..4 + 2] == Int16(0) && meta[6..6 + 4] == Int32(25);
    assert meta[10..10 + 2] == Int16(-1) && meta[12..12 + 4] == Int32(-1) && meta[16..16 + 2] == Int16(0);
    Int32RoundTrip(meta, 0, 0);
    Int16RoundTrip(meta, 4, 0);
    Int32RoundTrip(meta, 6, 25);
    Int16RoundTrip(meta, 10, -1);
    Int32RoundTrip(meta, 12, -1);
    Int16RoundTrip(meta, 16, 0);
  }

  lemma {:induction false} ReadValuesBack(values: seq<Bytes>)
    requires forall i :: 0 <= i < |values| ==> Sized(values[i])
    ensures ReadValues(Flatten(Values(values)), |values|) == Some(values)
  {
    if values == [] {
    } else {
      ReadValuesBack(values[1..]);
      ValuesFirst(values);
      HeadAndTail(values);
      ReadOneValue(values[0], Flatten(Values(values[1..])));
    }
  }

  lemma ValuesFirst(values: seq<Bytes>)
    requires values != []
    ensures Flatten(Values(values)) == Value(values[0]) + Flatten(Values(values[1..]))
  {
    FlattenFirst(Values(values));
    assert Values(values)[1..] == Values(values[1..]);
  }

  lemma ReadOneValue(v: Bytes, rest: Bytes)
    requires Sized(v)
    ensures ReadValue(Value(v) + rest) == Some((v, rest))
  {
    var b := Value(v) + rest;
    assert b[0..0 + 4] == Int32(|v|);
    Int32RoundTrip(b, 0, |v|);
    assert b[4..4 + |v|] == v && b[4 + |v|..] == rest;
  }

  /** A text column has the type OID 25, no fixed size and no modifier, and is sent as text. */
  lemma {:induction false} AllAreText(names: seq<Bytes>)
    ensures |TextFields(names)| == |names|
    ensures forall i :: 0 <= i < |names| ==> TextFields(names)[i] == Field(names[i], 0, 0, 25, -1, -1, 0)
  {
    if names == [] {
    } else {
      AllAreText(names[1..]);
    }
  }

  /** A reader of the payloads gets back the columns, all described as text, and the values. */
  lemma RowsRoundTrip(columns: seq<Bytes>, values: seq<Bytes>)
    requires |columns| <= INT16_MAX && forall i :: 0 <= i < |columns| ==> 0 !in columns[i]
    requires AllSized(values)
    ensures ReadRowDescription(Int16(|columns|) + Flatten(Columns(columns))) == Some(TextFields(columns))
    ensures ReadDataRow(Int16(|values|) + Flatten(Values(values))) == Some(values)
  {
    ReadCount(|columns|, Flatten(Columns(columns)));
    ReadCount(|values|, Flatten(Values(values)));
    ReadColumnsBack(columns);
    ReadValuesBack(values);
  }

  lemma ReadCount(n: nat, rest: Bytes)
    requires n <= INT16_MAX
    ensures ReadInt16(Int16(n) + rest, 0) == n && (Int16(n) + rest)[2..] == rest
  {
    assert (Int16(n) + rest)[0..0 + 2] == Int16(n);
    Int16RoundTrip(Int16(n) + rest, 0, n);
  }
}
