/**
 * `HandshakeV1_0` of rethinkdb/handshake.py as `DatabaseProtocol` of rethinkdb/twisted_net/net_twisted.py
 * runs it: a whole authentication against a server that follows RFC 5802, in whatever chunks its replies
 * arrive. JSON decoding and encoding are parameters.
 */
module ScramOverTwisted {
  import opened ByteStrings
  import opened Framing
  import opened Fragmentation
  import Scram
  import ScramProofs
  import opened TwistedProtocol
  import opened Wrappers

  /** The JSON codec of the handshake; `None` is an exception of the decoder. */
  datatype Coding = Coding(decode: Bytes -> Option<Scram.Reply>, encode: Scram.Outgoing -> Bytes)

  /** `next_message` on the bytes of a response. A response that does not decode is an exception in every state. */
  function NextMessage(
      lib: Scram.Library, coding: Coding, random: Bytes, c: Scram.Client, response: Option<Bytes>)
    : (Scram.Client, Answer)
  {
    if !Scram.Consistent(c) || (response.Some? && coding.decode(response.value).None?) then
      (c, Raises)
    else
      var reply := if response.None? then None else coding.decode(response.value);
      var (after, message) := Scram.Next(lib, c, reply, random);
      (after, match message
              case Err(_) => Raises
              case Ok(None) => Done
              case Ok(Some(Empty)) => Request([])
              case Ok(Some(m)) => Request(coding.encode(m)))
  }

  function Stepper(lib: Scram.Library, coding: Coding, random: Bytes)
    : (Scram.Client, Option<Bytes>) -> (Scram.Client, Answer)
  {
    (c, response) => NextMessage(lib, coding, random, c, response)
  }

  lemma NothingAfterNone(
      lib: Scram.Library, c: Scram.Client, response: Option<Scram.Reply>, more: Option<Scram.Reply>, random: Bytes)
    requires Scram.Consistent(c) && Scram.Next(lib, c, response, random).1 == Ok(None)
    ensures Scram.Next(lib, Scram.Next(lib, c, response, random).0, more, random).1.Err?
  {
    hide Scram.Consistent, Scram.Init, Scram.Read, Scram.Prepare, Scram.Verify;
    ScramProofs.CallsCount(lib, c, [response], random);
  }

  lemma ScramRaisesAfterDone(lib: Scram.Library, coding: Coding, random: Bytes)
    ensures RaisesAfterDone(Stepper(lib, coding, random))
  {
    hide Scram.Consistent, Scram.Next;
    var next := Stepper(lib, coding, random);
    forall c: Scram.Client, response: Option<Bytes>, more: Option<Bytes> | next(c, response).1.Done?
      ensures next(next(c, response).0, more).1.Raises?
    {
      NothingAfterNone(
        lib, c, if response.None? then None else coding.decode(response.value),
        if more.None? then None else coding.decode(more.value), random);
    }
  }

  /** The connection after `connectionMade`: the first message is written, nothing has arrived. */
  function Opening(lib: Scram.Library, coding: Coding, random: Bytes, username: string, password: Bytes)
    : Received<Scram.Client>
  {
    var (c, answer) := NextMessage(lib, coding, random, Scram.Start(username, password), None);
    var sent := if answer.Request? then SentBy(answer.bytes) else [];
    Received(Feeding(c, WaitingForHandshake, Pending, false, [], sent, []), [])
  }

  /** Three replies, each as bytes without a zero among them */
  datatype Exchange = Exchange(hello: Bytes, challenge: Bytes, verdict: Bytes)

  function Stream(x: Exchange): Bytes {
    x.hello + [0] + (x.challenge + [0] + (x.verdict + [0]))
  }

  /**
   * What the bytes decode to are the replies of a server that has the right password on record. Requests
   * are never encoded as nothing.
   */
  ghost predicate Honest(
      lib: Scram.Library, coding: Coding, srv: ScramProofs.Server, username: string, password: Bytes, random: Bytes,
      x: Exchange)
  {
    && ScramProofs.Lawful(lib, srv) && ScramProofs.Registered(lib, srv, username, password) && Scram.IsAscii(username)
    && (forall m :: coding.encode(m) != [])
    && 0 !in x.hello && 0 !in x.challenge && 0 !in x.verdict
    && (match (coding.decode(x.hello), coding.decode(x.challenge), coding.decode(x.verdict))
        case (Some(hello), Some(challenge), Some(verdict)) =>
          && ScramProofs.Greets(hello)
          && ScramProofs.Accepts(challenge, ScramProofs.FirstReceived(lib, srv, random))
          && ScramProofs.Accepts(verdict, ScramProofs.LastReceived(lib, srv, username, random))
        case _ => false)
  }

  /** The two requests of an exchange: the server answers the first and accepts the proof in the second. */
  ghost predicate AreRequests(
      lib: Scram.Library, coding: Coding, srv: ScramProofs.Server, username: string, random: Bytes, sent: seq<Bytes>)
  {
    exists first: string, final: string ::
      && sent == [coding.encode(Scram.Initial(0, "SCRAM-SHA-256", first)), coding.encode(Scram.Final(final))]
      && var answered := ScramProofs.FirstReceived(lib, srv, random);
      && ScramProofs.ServerFirst(lib, srv, first) == Some(answered)
      && ScramProofs.ServerFinal(lib, srv, first, answered, final)
           == Some(ScramProofs.LastReceived(lib, srv, username, random))
  }

  /** The three responses are answered with no request, with the proof and with `None`. */
  lemma Answers(
      lib: Scram.Library, coding: Coding, srv: ScramProofs.Server, username: string, password: Bytes, random: Bytes,
      x: Exchange)
    requires Honest(lib, coding, srv, username, password, random, x)
    ensures var opening := Opening(lib, coding, random, username, password).stage;
            var (c2, answer2) := NextMessage(lib, coding, random, opening.handshake, Some(x.hello));
            var (c3, answer3) := NextMessage(lib, coding, random, c2, Some(x.challenge));
            var (c4, answer4) := NextMessage(lib, coding, random, c3, Some(x.verdict));
            && answer2 == Request([]) && answer3.Request? && answer3.bytes != [] && answer4 == Done
            && AreRequests(lib, coding, srv, username, random, opening.sent + [answer3.bytes])
  {
    hide ScramProofs.Lawful, ScramProofs.Registered, ScramProofs.FirstReceived, ScramProofs.LastReceived;
    hide Scram.IsAscii, Scram.Start, ScramProofs.ServerFirst, ScramProofs.ServerFinal;
    ScramProofs.Completeness(
      lib, srv, username, password, random,
      coding.decode(x.hello).value, coding.decode(x.challenge).value, coding.decode(x.verdict).value);
  }

  /** One response at the front of the buffer */
  lemma ReadOne<H>(next: (H, Option<Bytes>) -> (H, Answer), f: Feeding<H>, response: Bytes, rest: Bytes)
    requires f.waiter.Pending? && !f.lost && 0 !in response && f.buf == response + [0] + rest
    ensures var (after, answer) := next(f.handshake, Some(response));
            Read(next, f) == Resume(next, f.(handshake := after, fed := f.fed + [response], buf := rest), answer)
  {
    hide Read, Resume, FindZero;
    FirstZero(response, rest);
    ReadFirst(next, f);
    assert f.buf[..|response|] == response && f.buf[|response| + 1..] == rest;
  }

  /** Three responses of which the last one completes the handshake */
  lemma ThreeResponses<H>(next: (H, Option<Bytes>) -> (H, Answer), f: Feeding<H>, x: Exchange, rest: Bytes)
    requires Fresh(f) && f.fed == [] && f.buf == Stream(x) + rest
    requires 0 !in x.hello && 0 !in x.challenge && 0 !in x.verdict
    requires var (c2, answer2) := next(f.handshake, Some(x.hello));
             var (c3, answer3) := next(c2, Some(x.challenge));
             answer2.Request? && answer3.Request? && next(c3, Some(x.verdict)).1.Done?
    ensures var all := Read(next, f);
            && all.waiter.Called? && all.fed == [x.hello, x.challenge, x.verdict] && all.buf == rest
            && var (c2, answer2) := next(f.handshake, Some(x.hello));
               all.sent == f.sent + SentBy(answer2.bytes) + SentBy(next(c2, Some(x.challenge)).1.bytes)
  {
    hide Read, SentBy;
    var two, three := x.challenge + [0] + (x.verdict + [0] + rest), x.verdict + [0] + rest;
    assert f.buf == x.hello + [0] + two;
    ReadOne(next, f, x.hello, two);
    var (c2, answer2) := next(f.handshake, Some(x.hello));
    var g := f.(handshake := c2, fed := f.fed + [x.hello], sent := f.sent + SentBy(answer2.bytes), buf := two);
    ReadOne(next, g, x.challenge, three);
    var (c3, answer3) := next(c2, Some(x.challenge));
    var h := g.(handshake := c3, fed := g.fed + [x.challenge], sent := g.sent + SentBy(answer3.bytes), buf := three);
    ReadOne(next, h, x.verdict, rest);
    assert f.fed + [x.hello] + [x.challenge] + [x.verdict] == [x.hello, x.challenge, x.verdict];
  }

  /** The byte by byte reader feeds the three responses, completes, and leaves the rest alone. */
  lemma ExchangeCompletes(
      lib: Scram.Library, coding: Coding, srv: ScramProofs.Server, username: string, password: Bytes, random: Bytes,
      x: Exchange, rest: Bytes)
    requires Honest(lib, coding, srv, username, password, random, x)
    ensures var f := Opening(lib, coding, random, username, password).stage.(buf := Stream(x) + rest);
            var all := Read(Stepper(lib, coding, random), f);
            && all.waiter.Called? && all.fed == [x.hello, x.challenge, x.verdict] && all.buf == rest
            && AreRequests(lib, coding, srv, username, random, all.sent)
  {
    hide Read, Stream, NextMessage, ScramProofs.Lawful, ScramProofs.Registered, AreRequests;
    Answers(lib, coding, srv, username, password, random, x);
    var f := Opening(lib, coding, random, username, password).stage.(buf := Stream(x) + rest);
    ThreeResponses(Stepper(lib, coding, random), f, x, rest);
    assert f.sent + [] == f.sent;
  }

  /**
   * A completed exchange and after it frames, in any chunks. The connection is lost exactly if a zero
   * byte followed the last response in its chunk; with nothing after it there the frames are handled.
   */
  lemma ExchangeInChunks(
      lib: Scram.Library, coding: Coding, srv: ScramProofs.Server, username: string, password: Bytes, random: Bytes,
      x: Exchange, frames: seq<Frame>, chunks: seq<Bytes>)
    requires Honest(lib, coding, srv, username, password, random, x) && AreFrames(frames)
    requires Concat(chunks) == Stream(x) + Encode(frames)
    ensures var next, c := Stepper(lib, coding, random), Opening(lib, coding, random, username, password);
            var t, extra := ReceiveAll(next, c, chunks), Surplus(next, c.stage, chunks);
            && (t.stage.lost <==> 0 in extra)
            && (extra == [] ==>
                  && t.stage.waiter.Called? && t.stage.fed == [x.hello, x.challenge, x.verdict] && t.handled == frames
                  && AreRequests(lib, coding, srv, username, random, t.stage.sent))
  {
    hide Read, Surplus, ReceiveAll, Encode, RaisesAfterDone, Honest, NextMessage, AreRequests;
    var next, c := Stepper(lib, coding, random), Opening(lib, coding, random, username, password);
    ExchangeCompletes(lib, coding, srv, username, password, random, x, Encode(frames));
    ScramRaisesAfterDone(lib, coding, random);
    assert c.stage.buf + Concat(chunks) == Concat(chunks);
    LostExactly(next, c, chunks);
    if Surplus(next, c.stage, chunks) == [] {
      ConnectionInChunks(next, c, chunks, frames);
    }
  }

  /** A payload shorter than 2^24 bytes has a zero in its length. */
  lemma EncodedHasZero(frame: Frame)
    requires IsFrame(frame) && |frame.payload| < 0x100_0000
    ensures 0 in Encode([frame])
  {
    hide Header;
    EncodeSplit([frame], []);
    var s := Encode([frame]);
    assert s + [] == s;
    HighLengthByte(frame.token, |frame.payload|);
    assert s[11] == Header(frame.token, |frame.payload|)[11];
  }

  lemma HighLengthByte(token: int, length: nat)
    requires IsToken(token) && length < 0x100_0000
    ensures Header(token, length)[11] == 0
  {
    LowBytesOnly(length, 3);
    hide LittleEndian;
    assert Header(token, length)[11] == LittleEndian(length, 4)[3];
  }

  /** The highest byte of a number that fits into fewer bytes is zero. */
  lemma {:induction false} LowBytesOnly(n: nat, width: nat)
    requires n < Pow256(width)
    ensures LittleEndian(n, width + 1)[width] == 0
  {
    if width > 0 {
      LowBytesOnly(n / 256, width - 1);
    }
  }

  /** The surplus of a stream whose first chunk completes the handshake */
  lemma SurplusOfFirst(
      lib: Scram.Library, coding: Coding, srv: ScramProofs.Server, username: string, password: Bytes, random: Bytes,
      x: Exchange, rest: Bytes, more: seq<Bytes>)
    requires Honest(lib, coding, srv, username, password, random, x)
    ensures var f := Opening(lib, coding, random, username, password).stage;
            Surplus(Stepper(lib, coding, random), f, [Stream(x) + rest] + more) == rest
  {
    hide Read, Honest, NextMessage, Stream;
    ExchangeCompletes(lib, coding, srv, username, password, random, x, rest);
    var f := Opening(lib, coding, random, username, password).stage;
    assert f.buf + (Stream(x) + rest) == Stream(x) + rest;
    assert ([Stream(x) + rest] + more)[0] == Stream(x) + rest;
  }

  /**
   * The same bytes, cut in two ways. With the frame in the chunk of the last response the connection of
   * a completed authentication is lost; with the frame in the next chunk it is handled.
   */
  lemma SurplusLosesConnection(
      lib: Scram.Library, coding: Coding, srv: ScramProofs.Server, username: string, password: Bytes, random: Bytes,
      x: Exchange, frame: Frame)
    requires Honest(lib, coding, srv, username, password, random, x)
    requires IsFrame(frame) && |frame.payload| < 0x100_0000
    ensures var next, c := Stepper(lib, coding, random), Opening(lib, coding, random, username, password);
            var whole := ReceiveAll(next, c, [Stream(x) + Encode([frame])]);
            var cut := ReceiveAll(next, c, [Stream(x), Encode([frame])]);
            whole.stage.lost && !cut.stage.lost && cut.handled == [frame]
  {
    hide Read, Surplus, ReceiveAll, Encode, Honest, Stream, NextMessage;
    var last := Encode([frame]);
    EncodedHasZero(frame);
    ConcatOfTwo(Stream(x), last);
    SurplusOfFirst(lib, coding, srv, username, password, random, x, last, []);
    assert [Stream(x) + last] + [] == [Stream(x) + last];
    ExchangeInChunks(lib, coding, srv, username, password, random, x, [frame], [Stream(x) + last]);
    SurplusOfFirst(lib, coding, srv, username, password, random, x, [], [last]);
    assert Stream(x) + [] == Stream(x) && [Stream(x)] + [last] == [Stream(x), last];
    ExchangeInChunks(lib, coding, srv, username, password, random, x, [frame], [Stream(x), last]);
  }

  lemma ConcatOfTwo(a: Bytes, b: Bytes)
    ensures Concat([a + b]) == a + b && Concat([a, b]) == a + b
  {
    assert [a + b][1..] == [] && [a, b][1..] == [b] && [b][1..] == [];
    assert Concat([]) == [] && b + [] == b && (a + b) + [] == a + b;
    assert Concat([b]) == b;
  }
}
