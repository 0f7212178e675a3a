/**
 * However the stream of a connection is cut into chunks, the Twisted protocol acts as if it had it
 * whole, and as the byte by byte reader of rethinkdb/net.py does - up to one exception, which is stated
 * exactly.
 */
module Fragmentation {
  import opened ByteStrings
  import opened Framing
  import opened TwistedProtocol
  import opened Wrappers

  function Concat(chunks: seq<Bytes>): Bytes {
    if chunks == [] then [] else chunks[0] + Concat(chunks[1..])
  }

  function ReceiveAll<H>(next: (H, Option<Bytes>) -> (H, Answer), c: Received<H>, chunks: seq<Bytes>): Received<H>
    decreases |chunks|
  {
    if chunks == [] then c else ReceiveAll(next, Receive(next, c, chunks[0]), chunks[1..])
  }

  // ----- frames -----

  lemma DecodeNothing(s: Bytes)
    ensures !HasFrame(s) ==> Decode(s) == Decoded([], s)
  {
  }

  lemma TailIsNoFrame(s: Bytes)
    ensures !HasFrame(Decode(s).tail)
  {
    EncodeOfDecode(s);
  }

  /** Once the handshake is over: the frames handled and the bytes held are those of the whole stream. */
  lemma {:induction false} FramesInAnyChunks<H>(
      next: (H, Option<Bytes>) -> (H, Answer), c: Received<H>, chunks: seq<Bytes>)
    requires c.stage.state.Ready?
    ensures var d := Decode(c.stage.buf + Concat(chunks));
            (chunks != [] || !HasFrame(c.stage.buf)) ==>
              ReceiveAll(next, c, chunks) == Received(c.stage.(buf := d.tail), c.handled + d.frames)
    decreases |chunks|
  {
    hide HasFrame, Decode;
    if chunks == [] {
      assert c.stage.buf + Concat(chunks) == c.stage.buf;
      DecodeNothing(c.stage.buf);
    } else {
      var d := Decode(c.stage.buf + chunks[0]);
      var rest := Decode(d.tail + Concat(chunks[1..]));
      DecodeInTwo(c.stage.buf + chunks[0], Concat(chunks[1..]));
      assert c.stage.buf + Concat(chunks) == c.stage.buf + chunks[0] + Concat(chunks[1..]);
      TailIsNoFrame(c.stage.buf + chunks[0]);
      FramesInAnyChunks(next, Receive(next, c, chunks[0]), chunks[1..]);
      assert c.handled + d.frames + rest.frames == c.handled + (d.frames + rest.frames);
    }
  }

  /** Two ways of cutting one stream cannot be told apart. */
  lemma FragmentationIndependence<H>(
      next: (H, Option<Bytes>) -> (H, Answer), c: Received<H>, chunks: seq<Bytes>, chunks': seq<Bytes>)
    requires c.stage.state.Ready? && !HasFrame(c.stage.buf)
    requires Concat(chunks) == Concat(chunks')
    ensures ReceiveAll(next, c, chunks) == ReceiveAll(next, c, chunks')
  {
    FramesInAnyChunks(next, c, chunks);
    FramesInAnyChunks(next, c, chunks');
  }

  /** The frames a server sent are the ones handled, in order, whatever chunks they came in. */
  lemma SentFramesAreHandled<H>(
      next: (H, Option<Bytes>) -> (H, Answer), c: Received<H>, frames: seq<Frame>, chunks: seq<Bytes>)
    requires c.stage.state.Ready? && c.stage.buf == []
    requires AreFrames(frames) && Concat(chunks) == Encode(frames)
    ensures ReceiveAll(next, c, chunks) == c.(handled := c.handled + frames)
  {
    hide Decode, Encode;
    FramesInAnyChunks(next, c, chunks);
    DecodeOfEncode(frames, []);
    assert Encode(frames) + [] == Encode(frames) == [] + Encode(frames);
  }

  // ----- the handshake, read byte by byte -----

  /** The responses are fed until one completes the handshake or raises, and what follows is left alone. */
  function Read<H>(next: (H, Option<Bytes>) -> (H, Answer), f: Feeding<H>): Feeding<H>
    decreases |f.buf|
  {
    match FindZero(f.buf)
    case None => f
    case Some(end) =>
      var g := FeedOne(next, f, end);
      if next(f.handshake, Some(f.buf[..end])).1.Request? then Read(next, g) else g
  }

  /** What comes of an answer of the handshake */
  function Resume<H>(next: (H, Option<Bytes>) -> (H, Answer), f: Feeding<H>, answer: Answer): Feeding<H> {
    match answer
    case Request(request) => Read(next, f.(sent := f.sent + SentBy(request)))
    case Done => f.(state := Ready, waiter := Called)
    case Raises => f.(waiter := Failed)
  }

  lemma ReadFirst<H>(next: (H, Option<Bytes>) -> (H, Answer), f: Feeding<H>)
    requires f.waiter.Pending? && !f.lost
    ensures FindZero(f.buf).None? ==> Read(next, f) == f
    ensures FindZero(f.buf).Some? ==>
              var end := FindZero(f.buf).value;
              var (after, answer) := next(f.handshake, Some(f.buf[..end]));
              Read(next, f) ==
                Resume(next, f.(handshake := after, fed := f.fed + [f.buf[..end]], buf := f.buf[end + 1..]), answer)
  {
  }

  /** The handshake from its first request on, `incoming` being all that the server sends */
  function Connecting<H>(
      next: (H, Option<Bytes>) -> (H, Answer), handshake: H, fed: seq<Bytes>, sent: seq<Bytes>, incoming: Bytes)
    : Feeding<H>
  {
    var (first, answer) := next(handshake, None);
    Resume(next, Feeding(first, WaitingForHandshake, Pending, false, fed, sent, incoming), answer)
  }

  class SocketWrapper<H(!new)> {
    const next: (H, Option<Bytes>) -> (H, Answer)
    var handshake: H
    var incoming: Bytes          // what the server has sent and nobody has read
    var sent: seq<Bytes>
    ghost var fed: seq<Bytes>

    constructor (next: (H, Option<Bytes>) -> (H, Answer), handshake: H, incoming: Bytes)
      ensures this.next == next && this.handshake == handshake && this.incoming == incoming && sent == [] && fed == []
    {
      this.next, this.handshake, this.incoming, sent, fed := next, handshake, incoming, [], [];
    }

    /** Reads single characters up to a zero byte, or finds the connection closed. */
    method ReadResponse() returns (response: Option<Bytes>)
      modifies this`incoming
      ensures match FindZero(old(incoming)) {
                case Some(end) => response == Some(old(incoming)[..end]) && incoming == old(incoming)[end + 1..]
                case None => response == None && incoming == []
              }
    {
      var read: Bytes := [];
      while incoming != []
        invariant old(incoming) == read + incoming && 0 !in read
        decreases |incoming|
      {
        var c := incoming[0];
        incoming := incoming[1..];
        if c == 0 {
          FirstZero(read, incoming);
          assert old(incoming) == read + [0] + incoming;
          return Some(read);
        }
        read := read + [c];
      }
      return None;
    }

    ghost function Stage(): Feeding<H>
      reads this
    {
      Feeding(handshake, WaitingForHandshake, Pending, false, fed, sent, incoming)
    }

    /** `Pending` is a connection that the server closed during the handshake. */
    method Handshake() returns (outcome: Waiter)
      modifies this`incoming, this`handshake, this`sent, this`fed
      ensures var all := Connecting(next, old(handshake), old(fed), old(sent), old(incoming));
              && handshake == all.handshake && fed == all.fed && sent == all.sent && outcome == all.waiter
              && incoming == if outcome.Pending? then [] else all.buf
    {
      hide Read, FindZero;
      var (first, answer) := next(handshake, None);
      handshake := first;
      ghost var all := Resume(next, Stage(), answer);
      while answer.Request?
        invariant all == Resume(next, Stage(), answer)
        decreases answer.Request?, |incoming|
      {
        ghost var before := Stage();
        if answer.bytes != [] {
          sent := sent + [answer.bytes];
        }
        assert Stage() == before.(sent := before.sent + SentBy(answer.bytes));
        ReadFirst(next, Stage());
        var response := ReadResponse();
        if response.None? {
          return Pending;
        }
        fed := fed + [response.value];
        var (after, answered) := next(handshake, response);
        handshake, answer := after, answered;
      }
      outcome := if answer.Done? then Called else Failed;
    }
  }

  lemma {:induction false} FirstZero(read: Bytes, rest: Bytes)
    requires 0 !in read
    ensures FindZero(read + [0] + rest) == Some(|read|)
  {
    var s := read + [0] + rest;
    if read == [] {
      assert s[0] == 0;
    } else {
      FirstZero(read[1..], rest);
      assert s[1..] == read[1..] + [0] + rest;
    }
  }

  // ----- the handshake in chunks -----

  predicate Fresh<H>(f: Feeding<H>) {
    f.state.WaitingForHandshake? && f.waiter.Pending? && !f.lost
  }

  /** One chunk: the same responses are fed, and after the last of them whatever else ends with a zero. */
  lemma {:induction false} FeedIsRead<H>(next: (H, Option<Bytes>) -> (H, Answer), f: Feeding<H>)
    requires Fresh(f)
    ensures var r := Read(next, f);
            && (r.waiter.Pending? ==> Fresh(r) && FindZero(r.buf).None?)
            && (r.waiter.Called? <==> r.state.Ready?)
            && Feed(next, f) == if r.waiter.Called? then Feed(next, r) else r
    decreases |f.buf|
  {
    match FindZero(f.buf)
    case None =>
    case Some(end) =>
      if next(f.handshake, Some(f.buf[..end])).1.Request? {
        FeedIsRead(next, FeedOne(next, f, end));
      }
  }

  lemma ZeroAhead(a: Bytes, b: Bytes)
    ensures FindZero(a).Some? ==> FindZero(a + b) == FindZero(a)
    decreases a
  {
    if a != [] && a[0] != 0 {
      ZeroAhead(a[1..], b);
      assert (a + b)[1..] == a[1..] + b;
    }
  }

  /** Reading can be broken off and taken up again anywhere. */
  lemma {:induction false} ReadInTwo<H>(next: (H, Option<Bytes>) -> (H, Answer), f: Feeding<H>, b: Bytes)
    requires Fresh(f)
    ensures var r := Read(next, f);
            Read(next, f.(buf := f.buf + b)) ==
              if r.waiter.Pending? then Read(next, r.(buf := r.buf + b)) else r.(buf := r.buf + b)
    decreases |f.buf|
  {
    match FindZero(f.buf)
    case None =>
    case Some(end) =>
      ZeroAhead(f.buf, b);
      assert (f.buf + b)[..end] == f.buf[..end];
      assert (f.buf + b)[end + 1..] == f.buf[end + 1..] + b;
      assert FeedOne(next, f.(buf := f.buf + b), end) == FeedOne(next, f, end).(buf := f.buf[end + 1..] + b);
      if next(f.handshake, Some(f.buf[..end])).1.Request? {
        ReadInTwo(next, FeedOne(next, f, end), b);
      }
  }

  /** The calls of the handshake are never taken back, and its failure is for good. */
  lemma {:induction false} FeedGrows<H>(next: (H, Option<Bytes>) -> (H, Answer), f: Feeding<H>)
    ensures f.fed <= Feed(next, f).fed
    ensures FindZero(f.buf).Some? ==> |f.fed| < |Feed(next, f).fed|
    ensures f.waiter.Failed? ==> Feed(next, f).waiter.Failed?
    decreases |f.buf|
  {
    match FindZero(f.buf)
    case None =>
    case Some(end) =>
      if !Stops(next, f, end) {
        FeedGrows(next, FeedOne(next, f, end));
      }
  }

  lemma {:induction false} ReceiveGrows<H>(next: (H, Option<Bytes>) -> (H, Answer), c: Received<H>, chunks: seq<Bytes>)
    ensures c.stage.fed <= ReceiveAll(next, c, chunks).stage.fed
    ensures c.stage.waiter.Failed? ==> ReceiveAll(next, c, chunks).stage.waiter.Failed?
    decreases |chunks|
  {
    hide Feed, Decode;
    if chunks != [] {
      FeedGrows(next, c.stage.(buf := c.stage.buf + chunks[0]));
      ReceiveGrows(next, Receive(next, c, chunks[0]), chunks[1..]);
    }
  }

  /** What came after the last response of the handshake in the chunk that completed it */
  function Surplus<H>(next: (H, Option<Bytes>) -> (H, Answer), f: Feeding<H>, chunks: seq<Bytes>): Bytes
    decreases |chunks|
  {
    if chunks == [] then
      []
    else
      var r := Read(next, f.(buf := f.buf + chunks[0]));
      if r.waiter.Called? then r.buf else Surplus(next, r, chunks[1..])
  }

  /** The reader over the whole stream, and `Receive` over the first chunk of it */
  lemma FirstChunk<H>(next: (H, Option<Bytes>) -> (H, Answer), c: Received<H>, chunks: seq<Bytes>)
    requires Fresh(c.stage) && chunks != []
    ensures var r := Read(next, c.stage.(buf := c.stage.buf + chunks[0]));
            var all := Read(next, c.stage.(buf := c.stage.buf + Concat(chunks)));
            && (r.waiter.Pending? ==> Fresh(r) && FindZero(r.buf).None?)
            && (r.waiter.Called? <==> r.state.Ready?)
            && all == (if r.waiter.Pending? then Read(next, r.(buf := r.buf + Concat(chunks[1..])))
                       else r.(buf := r.buf + Concat(chunks[1..])))
            && Receive(next, c, chunks[0]) == c.(stage := if r.waiter.Called? then Feed(next, r) else r)
  {
    hide Read, Feed;
    FeedIsRead(next, c.stage.(buf := c.stage.buf + chunks[0]));
    ReadInTwo(next, c.stage.(buf := c.stage.buf + chunks[0]), Concat(chunks[1..]));
    assert c.stage.buf + Concat(chunks) == c.stage.buf + chunks[0] + Concat(chunks[1..]);
  }

  lemma NothingFed<H>(next: (H, Option<Bytes>) -> (H, Answer), f: Feeding<H>)
    ensures 0 !in f.buf ==> Feed(next, f) == f
    ensures 0 in f.buf ==> |f.fed| < |Feed(next, f).fed|
  {
    FeedGrows(next, f);
  }

  /**
   * The splitter against the byte by byte reader of the same stream. While the handshake is unfinished
   * or when it fails they agree. When it completes they agree exactly if no zero byte followed it in
   * the same chunk; the rest of the stream is then decoded as frames, none of it lost.
   */
  lemma {:induction false} HandshakeInChunks<H>(
      next: (H, Option<Bytes>) -> (H, Answer), c: Received<H>, chunks: seq<Bytes>)
    requires Fresh(c.stage) && FindZero(c.stage.buf).None?
    ensures var all := Read(next, c.stage.(buf := c.stage.buf + Concat(chunks)));
            var t, extra := ReceiveAll(next, c, chunks), Surplus(next, c.stage, chunks);
            && (all.waiter.Pending? ==> t == c.(stage := all))
            && (all.waiter.Failed? ==> t.stage.waiter.Failed? && all.fed <= t.stage.fed)
            && (all.waiter.Called? ==> (t.stage.fed == all.fed <==> 0 !in extra))
            && (all.waiter.Called? && 0 !in extra && !HasFrame(extra) ==>
                  var d := Decode(all.buf); t == Received(all.(buf := d.tail), c.handled + d.frames))
    decreases |chunks|
  {
    hide Read, Feed, FindZero, Decode, HasFrame;
    if chunks == [] {
      assert c.stage.buf + Concat(chunks) == c.stage.buf;
      ReadFirst(next, c.stage);
    } else {
      FirstChunk(next, c, chunks);
      var r := Read(next, c.stage.(buf := c.stage.buf + chunks[0]));
      if r.waiter.Pending? {
        HandshakeInChunks(next, c.(stage := r), chunks[1..]);
      } else if r.waiter.Failed? {
        ReceiveGrows(next, c.(stage := r), chunks[1..]);
      } else {
        NothingFed(next, r);
        ReceiveGrows(next, Receive(next, c, chunks[0]), chunks[1..]);
        if 0 !in r.buf {
          FramesInAnyChunks(next, c.(stage := r), chunks[1..]);
          FedStays(next, c.(stage := r), chunks[1..]);
        }
      }
    }
  }

  lemma {:induction false} FedStays<H>(next: (H, Option<Bytes>) -> (H, Answer), c: Received<H>, chunks: seq<Bytes>)
    requires c.stage.state.Ready?
    ensures var t := ReceiveAll(next, c, chunks).stage; t.fed == c.stage.fed && t.lost == c.stage.lost
    decreases |chunks|
  {
    hide Decode, Feed;
    if chunks != [] {
      FedStays(next, Receive(next, c, chunks[0]), chunks[1..]);
    }
  }

  // ----- what a zero byte after the last response does -----

  /** A completed handshake accepts nothing more. */
  ghost predicate RaisesAfterDone<H(!new)>(next: (H, Option<Bytes>) -> (H, Answer)) {
    forall h: H, response: Option<Bytes>, more: Option<Bytes> ::
      next(h, response).1.Done? ==> next(next(h, response).0, more).1.Raises?
  }

  lemma {:induction false} CompletedRefuses<H(!new)>(
      next: (H, Option<Bytes>) -> (H, Answer), f: Feeding<H>, more: Option<Bytes>)
    requires RaisesAfterDone(next) && Fresh(f)
    ensures var r := Read(next, f); !r.lost && (r.waiter.Called? ==> next(r.handshake, more).1.Raises?)
    decreases |f.buf|
  {
    match FindZero(f.buf)
    case None =>
    case Some(end) =>
      if next(f.handshake, Some(f.buf[..end])).1.Request? {
        CompletedRefuses(next, FeedOne(next, f, end), more);
      }
  }

  lemma RefusalLoses<H>(next: (H, Option<Bytes>) -> (H, Answer), r: Feeding<H>)
    requires r.waiter.Called? && r.state.Ready? && !r.lost
    requires FindZero(r.buf).Some? ==> next(r.handshake, Some(r.buf[..FindZero(r.buf).value])).1.Raises?
    ensures Feed(next, r).state.Ready? && (Feed(next, r).lost <==> 0 in r.buf)
  {
    FeedFirst(next, r);
  }

  /**
   * A handshake that completes and accepts nothing more: the connection is lost exactly if a zero byte
   * stood after its last response in the same chunk.
   */
  lemma {:induction false} LostExactly<H(!new)>(
      next: (H, Option<Bytes>) -> (H, Answer), c: Received<H>, chunks: seq<Bytes>)
    requires RaisesAfterDone(next)
    requires Fresh(c.stage) && FindZero(c.stage.buf).None?
    requires Read(next, c.stage.(buf := c.stage.buf + Concat(chunks))).waiter.Called?
    ensures ReceiveAll(next, c, chunks).stage.lost <==> 0 in Surplus(next, c.stage, chunks)
    decreases |chunks|
  {
    hide Read, Feed, FindZero, RaisesAfterDone;
    if chunks == [] {
      assert c.stage.buf + Concat(chunks) == c.stage.buf;
      ReadFirst(next, c.stage);
    } else {
      FirstChunk(next, c, chunks);
      var r := Read(next, c.stage.(buf := c.stage.buf + chunks[0]));
      if r.waiter.Pending? {
        LostExactly(next, c.(stage := r), chunks[1..]);
      } else {
        var end := FindZero(r.buf);
        CompletedRefuses(
          next, c.stage.(buf := c.stage.buf + chunks[0]), if end.Some? then Some(r.buf[..end.value]) else None);
        RefusalLoses(next, r);
        FedStays(next, Receive(next, c, chunks[0]), chunks[1..]);
      }
    }
  }

  /**
   * A server that sends no frame before it has been asked something ends a chunk with its last
   * response. The whole connection then goes as `SocketWrapper` would have it: the same responses, the
   * same requests, and after them exactly the frames sent.
   */
  lemma ConnectionInChunks<H>(
      next: (H, Option<Bytes>) -> (H, Answer), c: Received<H>, chunks: seq<Bytes>, frames: seq<Frame>)
    requires Fresh(c.stage) && c.stage.buf == [] && AreFrames(frames)
    requires var all := Read(next, c.stage.(buf := Concat(chunks))); all.waiter.Called? && all.buf == Encode(frames)
    requires Surplus(next, c.stage, chunks) == []
    ensures ReceiveAll(next, c, chunks)
         == Received(Read(next, c.stage.(buf := Concat(chunks))).(buf := []), c.handled + frames)
  {
    hide Read, Feed, Decode, Encode;
    assert [] + Concat(chunks) == Concat(chunks);
    HandshakeInChunks(next, c, chunks);
    DecodeOfEncode(frames, []);
    assert Encode(frames) + [] == Encode(frames);
  }

  // ----- the Deferred fires once -----

  /** The handshake after these responses */
  function After<H>(next: (H, Option<Bytes>) -> (H, Answer), h: H, fed: seq<Bytes>): H {
    if fed == [] then h else next(After(next, h, fed[..|fed| - 1]), Some(fed[|fed| - 1])).0
  }

  /** The answer to the last of these responses */
  function LastAnswer<H>(next: (H, Option<Bytes>) -> (H, Answer), h: H, fed: seq<Bytes>): Answer
    requires fed != []
  {
    next(After(next, h, fed[..|fed| - 1]), Some(fed[|fed| - 1])).1
  }

  /** How often these responses complete the handshake or raise */
  function Outcomes<H>(next: (H, Option<Bytes>) -> (H, Answer), h: H, fed: seq<Bytes>): nat {
    if fed == [] then 0
    else Outcomes(next, h, fed[..|fed| - 1]) + if LastAnswer(next, h, fed).Request? then 0 else 1
  }

  predicate Completes<H>(next: (H, Option<Bytes>) -> (H, Answer), h: H, fed: seq<Bytes>) {
    fed != [] && (LastAnswer(next, h, fed).Done? || Completes(next, h, fed[..|fed| - 1]))
  }

  /** The requests these responses are answered with, but for those that are empty */
  function Requests<H>(next: (H, Option<Bytes>) -> (H, Answer), h: H, fed: seq<Bytes>): seq<Bytes> {
    if fed == [] then []
    else
      var answer := LastAnswer(next, h, fed);
      Requests(next, h, fed[..|fed| - 1]) + if answer.Request? && answer.bytes != [] then [answer.bytes] else []
  }

  /** What the connection is after feeding these responses to a handshake in state `h` */
  predicate Replayed<H(==)>(next: (H, Option<Bytes>) -> (H, Answer), h: H, first: seq<Bytes>, f: Feeding<H>) {
    var outcomes := Outcomes(next, h, f.fed);
    && f.handshake == After(next, h, f.fed)
    && f.sent == first + Requests(next, h, f.fed)
    && (f.waiter.Pending? <==> outcomes == 0) && (f.waiter.Pending? ==> f.state.WaitingForHandshake?)
    && (f.lost <==> outcomes >= 2)
    && (f.state.Ready? <==> Completes(next, h, f.fed))
    && (f.waiter.Called? <==> outcomes == 1 && f.state.Ready?)
  }

  lemma OneMore<H>(next: (H, Option<Bytes>) -> (H, Answer), h: H, fed: seq<Bytes>, response: Bytes)
    ensures var (after, answer) := next(After(next, h, fed), Some(response));
            var all := fed + [response];
            && After(next, h, all) == after
            && Outcomes(next, h, all) == Outcomes(next, h, fed) + (if answer.Request? then 0 else 1)
            && (Completes(next, h, all) <==> answer.Done? || Completes(next, h, fed))
            && Requests(next, h, all)
                 == Requests(next, h, fed) + (if answer.Request? && answer.bytes != [] then [answer.bytes] else [])
  {
    var all := fed + [response];
    assert all[..|all| - 1] == fed && all[|all| - 1] == response;
  }

  lemma FeedOneReplays<H>(
      next: (H, Option<Bytes>) -> (H, Answer), h: H, first: seq<Bytes>, f: Feeding<H>, end: nat)
    requires end < |f.buf| && Replayed(next, h, first, f)
    ensures Replayed(next, h, first, FeedOne(next, f, end))
  {
    hide After, Outcomes, Completes, Requests;
    OneMore(next, h, f.fed, f.buf[..end]);
    var (_, answer) := next(f.handshake, Some(f.buf[..end]));
    var sent := Requests(next, h, f.fed);
    if answer.Request? {
      assert first + sent + SentBy(answer.bytes) == first + (sent + SentBy(answer.bytes));
    } else {
      assert sent + [] == sent;
    }
  }

  lemma {:induction false} FeedReplays<H>(
      next: (H, Option<Bytes>) -> (H, Answer), h: H, first: seq<Bytes>, f: Feeding<H>)
    requires Replayed(next, h, first, f)
    ensures Replayed(next, h, first, Feed(next, f))
    decreases |f.buf|
  {
    hide Replayed;
    match FindZero(f.buf)
    case None =>
    case Some(end) =>
      FeedOneReplays(next, h, first, f, end);
      if !Stops(next, f, end) {
        FeedReplays(next, h, first, FeedOne(next, f, end));
      }
  }

  lemma {:induction false} ReceiveReplays<H>(
      next: (H, Option<Bytes>) -> (H, Answer), h: H, first: seq<Bytes>, c: Received<H>, chunks: seq<Bytes>)
    requires Replayed(next, h, first, c.stage)
    ensures Replayed(next, h, first, ReceiveAll(next, c, chunks).stage)
    decreases |chunks|
  {
    hide Feed, Decode;
    if chunks != [] {
      FeedReplays(next, h, first, c.stage.(buf := c.stage.buf + chunks[0]));
      ReceiveReplays(next, h, first, Receive(next, c, chunks[0]), chunks[1..]);
    }
  }

  /**
   * Whatever the handshake answers and however the stream is cut: the requests written are its answers
   * in order, the Deferred fires at the first completion or exception, and the connection is lost
   * exactly at the second.
   */
  lemma FiresOnce<H>(next: (H, Option<Bytes>) -> (H, Answer), c: Received<H>, chunks: seq<Bytes>)
    requires Fresh(c.stage) && c.stage.fed == []
    ensures Replayed(next, c.stage.handshake, c.stage.sent, ReceiveAll(next, c, chunks).stage)
  {
    assert c.stage.sent + [] == c.stage.sent;
    ReceiveReplays(next, c.stage.handshake, c.stage.sent, c, chunks);
  }
}
