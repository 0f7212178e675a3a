/**
 * `DatabaseProtocol` of rethinkdb/twisted_net/net_twisted.py, which gets the bytes of the connection in
 * whatever chunks arrive, and the handshake loop of `SocketWrapper` in rethinkdb/net.py, which reads
 * them one by one. The handshake itself is a parameter: `next_message` as a function of its state.
 */
module TwistedProtocol {
  import opened ByteStrings
  import opened Framing
  import opened Wrappers

  /** What `next_message` gives: `None`, a request that may be empty, or an exception */
  datatype Answer = Done | Request(bytes: Bytes) | Raises

  /** The Deferred `wait_for_handshake` */
  datatype Waiter = Pending | Called | Failed

  datatype ProtocolState = WaitingForHandshake | Ready

  // ----- handshake responses end with a zero byte -----

  /** `find(b"\0")` */
  function FindZero(s: Bytes): (at: Option<nat>)
    ensures at.Some? ==> at.value < |s| && s[at.value] == 0 && 0 !in s[..at.value]
    ensures at.None? ==> 0 !in s
  {
    if s == [] then
      None
    else if s[0] == 0 then
      Some(0)
    else
      match FindZero(s[1..])
      case None => None
      case Some(i) => assert s[..i + 1] == [s[0]] + s[1..][..i]; Some(i + 1)
  }

  /**
   * The handshake part of the connection: `fed` are the calls of `next_message`, `sent` those of
   * `transport.write`, `buf` the bytes not fed yet; `lost` says that `transport.loseConnection` was called.
   */
  datatype Feeding<H> = Feeding(
    handshake: H, state: ProtocolState, waiter: Waiter, lost: bool, fed: seq<Bytes>, sent: seq<Bytes>, buf: Bytes)

  function SentBy(request: Bytes): seq<Bytes> {
    if request == [] then [] else [request]
  }

  /** One response, which ends at `end`. An exception is for the Deferred, unless it has fired already. */
  function FeedOne<H>(next: (H, Option<Bytes>) -> (H, Answer), f: Feeding<H>, end: nat): Feeding<H>
    requires end < |f.buf|
  {
    var response := f.buf[..end];
    var (after, answer) := next(f.handshake, Some(response));
    var g := f.(handshake := after, fed := f.fed + [response], buf := f.buf[end + 1..]);
    match answer
    case Raises => g.(waiter := Failed, lost := f.lost || !f.waiter.Pending?)
    case Request(request) => g.(sent := f.sent + SentBy(request))
    case Done =>
      if f.waiter.Pending? then g.(state := Ready, waiter := Called)
      else g.(state := Ready, waiter := Failed, lost := true)
  }

  /** The answer is an exception, or completes what is completed or has failed. */
  predicate Stops<H>(next: (H, Option<Bytes>) -> (H, Answer), f: Feeding<H>, end: nat)
    requires end < |f.buf|
  {
    var answer := next(f.handshake, Some(f.buf[..end])).1;
    answer.Raises? || (answer.Done? && !f.waiter.Pending?)
  }

  /** Every response in the buffer is fed to the handshake, also those after its last one. */
  function Feed<H>(next: (H, Option<Bytes>) -> (H, Answer), f: Feeding<H>): Feeding<H>
    decreases |f.buf|
  {
    match FindZero(f.buf)
    case None => f
    case Some(end) => if Stops(next, f, end) then FeedOne(next, f, end) else Feed(next, FeedOne(next, f, end))
  }

  lemma FeedFirst<H>(next: (H, Option<Bytes>) -> (H, Answer), f: Feeding<H>)
    ensures FindZero(f.buf).None? ==> Feed(next, f) == f
    ensures FindZero(f.buf).Some? ==>
              var end := FindZero(f.buf).value;
              Feed(next, f) == if Stops(next, f, end) then FeedOne(next, f, end) else Feed(next, FeedOne(next, f, end))
  {
  }

  /** A connection between two chunks; `stage.buf` holds all bytes that arrived and were not acted on. */
  datatype Received<H> = Received(stage: Feeding<H>, handled: seq<Frame>)

  /** One chunk */
  function Receive<H>(next: (H, Option<Bytes>) -> (H, Answer), c: Received<H>, data: Bytes): Received<H> {
    match c.stage.state
    case WaitingForHandshake => c.(stage := Feed(next, c.stage.(buf := c.stage.buf + data)))
    case Ready =>
      var d := Decode(c.stage.buf + data);
      Received(c.stage.(buf := d.tail), c.handled + d.frames)
  }

  class DatabaseProtocol<H(!new)> {
    const next: (H, Option<Bytes>) -> (H, Answer)
    var handshake: H
    var state: ProtocolState
    var buf: Bytes
    var bufExpectedLength: nat
    var bufToken: Option<int>
    var waiter: Waiter
    var isOpen: bool
    var lost: bool               // `transport.loseConnection` was called
    var sent: seq<Bytes>         // what went to `transport.write`
    var handled: seq<Frame>      // the calls of `response_handler`
    ghost var fed: seq<Bytes>    // the calls of `next_message`

    constructor (next: (H, Option<Bytes>) -> (H, Answer), handshake: H)
      ensures this.next == next && this.handshake == handshake
      ensures state == WaitingForHandshake && waiter == Pending && !lost && isOpen
      ensures fed == [] && sent == [] && handled == []
      ensures Valid() && Held() == []
    {
      this.next := next;
      this.handshake := handshake;
      state, buf, bufExpectedLength, bufToken := WaitingForHandshake, [], 0, None;
      waiter, lost, isOpen := Pending, false, true;
      sent, handled, fed := [], [], [];
    }

    /** Between two calls a header has been read exactly when its payload is still awaited. */
    ghost predicate Valid()
      reads this
    {
      && (bufToken.None? <==> bufExpectedLength == 0)
      && (bufToken.Some? ==> IsToken(bufToken.value) && IsLength(bufExpectedLength) && state.Ready?)
    }

    /** The bytes that have arrived and have not been acted on, the header already read among them */
    ghost function Held(): Bytes
      reads this
      requires Valid()
    {
      if bufToken.Some? then Header(bufToken.value, bufExpectedLength) + buf else buf
    }

    ghost function Stage(): Feeding<H>
      reads this
    {
      Feeding(handshake, state, waiter, lost, fed, sent, buf)
    }

    /** The body of the loop, for a response that ends at `end`; the result says whether the loop goes on. */
    method HandleOne(end: nat) returns (going: bool)
      requires Valid() && bufToken.None? && end < |buf|
      modifies this`handshake, this`state, this`buf, this`waiter, this`lost, this`sent, this`fed
      ensures Stage() == FeedOne(next, old(Stage()), end) && going == !Stops(next, old(Stage()), end)
      ensures |buf| < old(|buf|)
    {
      var response := buf[..end];
      buf := buf[end + 1..];
      fed := fed + [response];
      var (after, answer) := next(handshake, Some(response));
      handshake := after;
      going := true;
      match answer {
      case Raises =>
        if !waiter.Pending? { lost := true; }
        waiter, going := Failed, false;
      case Request(request) =>
        if request != [] { sent := sent + [request]; }
      case Done =>
        state := Ready;
        if waiter.Pending? {
          waiter := Called;
        } else {
          waiter, lost, going := Failed, true, false;
        }
      }
    }

    method HandleHandshake(data: Bytes)
      requires Valid() && bufToken.None?
      modifies this`handshake, this`state, this`buf, this`waiter, this`lost, this`sent, this`fed
      ensures Valid()
      ensures Stage() == Feed(next, old(Stage()).(buf := old(buf) + data))
    {
      hide Feed, FindZero, FeedOne, Stops;
      buf := buf + data;
      var going := true;
      ghost var outcome := Feed(next, Stage());
      while going
        invariant bufToken.None? && bufExpectedLength == 0
        invariant outcome == if going then Feed(next, Stage()) else Stage()
        decreases going, |buf|
      {
        FeedFirst(next, Stage());
        var endIndex := FindZero(buf);
        if endIndex.Some? {
          going := HandleOne(endIndex.value);
        } else {
          going := false;
        }
      }
    }

    method HandleResponse(data: Bytes)
      requires Valid() && state.Ready?
      modifies this`buf, this`bufExpectedLength, this`bufToken, this`handled
      ensures Valid()
      ensures var d := Decode(old(Held()) + data);
              handled == old(handled) + d.frames && Held() == d.tail
    {
      hide Header, Decode, TokenOf, LengthOf;
      buf := buf + data;
      ghost var done: seq<Frame>, all := [], Held();
      assert all == old(Held()) + data;
      while true
        invariant Valid() && state.Ready?
        invariant handled == old(handled) + done
        invariant Decode(all) == Decoded(done + Decode(Held()).frames, Decode(Held()).tail)
        decreases |buf|
      {
        ghost var held := Held();
        if bufExpectedLength == 0 {
          if |buf| >= HEADER_SIZE {
            HeaderIsRead(buf[..HEADER_SIZE]);
            bufToken := Some(TokenOf(buf[..HEADER_SIZE]));
            bufExpectedLength := LengthOf(buf[..HEADER_SIZE]);
            assert buf == buf[..HEADER_SIZE] + buf[HEADER_SIZE..];
            buf := buf[HEADER_SIZE..];
          } else {
            TooShort(held);
            return;
          }
        }
        AfterHeader(bufToken.value, bufExpectedLength, buf);
        assert held == Header(bufToken.value, bufExpectedLength) + buf;
        if |buf| < bufExpectedLength {
          return;
        }
        ghost var frame := Frame(bufToken.value, buf[..bufExpectedLength]);
        assert done + ([frame] + Decode(buf[bufExpectedLength..]).frames)
          == done + [frame] + Decode(buf[bufExpectedLength..]).frames;
        handled := handled + [Frame(bufToken.value, buf[..bufExpectedLength])];
        done := done + [frame];
        buf := buf[bufExpectedLength..];
        bufToken := None;
        bufExpectedLength := 0;
      }
    }

    /** What was received, with the header already read among the bytes held */
    ghost function View(): Received<H>
      reads this
      requires Valid()
    {
      Received(Stage().(buf := Held()), handled)
    }

    /** A connection that is not open any more ignores what arrives. */
    method DataReceived(data: Bytes)
      requires Valid()
      modifies this
      ensures Valid() && isOpen == old(isOpen)
      ensures View() == if isOpen then Receive(next, old(View()), data) else old(View())
    {
      if isOpen {
        match state
        case WaitingForHandshake => HandleHandshake(data);
        case Ready => HandleResponse(data);
      }
    }

    method ConnectionLost()
      requires Valid()
      modifies this`isOpen
      ensures Valid() && !isOpen
    {
      isOpen := false;
    }
  }

  lemma TooShort(s: Bytes)
    requires |s| < HEADER_SIZE
    ensures Decode(s) == Decoded([], s)
  {
  }

  /** Once the header is read, the frame is complete when its payload is. */
  lemma AfterHeader(token: int, length: nat, buf: Bytes)
    requires IsToken(token) && IsLength(length)
    ensures var s := Header(token, length) + buf;
            Decode(s) == if |buf| < length then Decoded([], s)
                         else var d := Decode(buf[length..]); Decoded([Frame(token, buf[..length])] + d.frames, d.tail)
  {
    HeaderRoundTrip(token, length);
    hide Header, TokenOf, LengthOf;
    var s := Header(token, length) + buf;
    assert s[..HEADER_SIZE] == Header(token, length);
    assert s[HEADER_SIZE..] == buf;
    if |buf| >= length {
      assert s[HEADER_SIZE..FrameEnd(s)] == buf[..length];
      assert s[FrameEnd(s)..] == buf[length..];
    }
  }
}
