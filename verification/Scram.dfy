/**
 * `HandshakeV1_0` of rethinkdb/handshake.py: the client of a SCRAM-SHA-256 authentication (RFC 5802)
 * whose messages travel as JSON objects. JSON text, base64, HMAC, SHA-256 and the parsing of numbers
 * are parameters.
 */
module Scram {
  import opened ByteStrings
  import opened Wrappers
  import opened KeyDerivation

  /** What the client takes from libraries */
  datatype Library = Library(
    mac: Mac,
    hash: Bytes -> Digest,
    encode64: Bytes -> string,
    decode64: string -> Option<Bytes>,
    parseInt: string -> Option<int>)

  /** A reply after JSON decoding; a key that is missing is `None`. */
  datatype Reply = Reply(
    success: Option<bool>,
    errorCode: Option<int>,
    error: Option<string>,
    minProtocolVersion: Option<int>,
    maxProtocolVersion: Option<int>,
    authentication: Option<string>)

  /** `Other` stands for exceptions that are not the driver's own: a missing key, bytes that do not decode. */
  datatype Error = Auth(message: string) | Driver(message: string) | Other

  /** A request before JSON encoding; `Empty` is the empty string, which is not sent. */
  datatype Outgoing =
    | Initial(protocolVersion: int, authenticationMethod: string, authentication: string)
    | Empty
    | Final(authentication: string)

  // ----- text -----

  predicate IsAscii(s: string) {
    forall i :: 0 <= i < |s| ==> s[i] as int < 128
  }

  /** The bytes of a text whose characters are bytes */
  function Octets(s: string): (bytes: Bytes)
    ensures |bytes| == |s| && forall i :: 0 <= i < |s| && s[i] as int < 256 ==> bytes[i] == s[i] as int
  {
    seq(|s|, i requires 0 <= i < |s| => s[i] as int % 256)
  }

  /** `s.replace(c, into)` for a single character */
  function Replace(s: string, c: char, into: string): string {
    if s == "" then "" else (if s[0] == c then into else [s[0]]) + Replace(s[1..], c, into)
  }

  /** The `saslname` of section 5.1 of RFC 5802 */
  function Escape(username: string): string {
    Replace(Replace(username, '=', "=3D"), ',', "=2C")
  }

  function Split(s: string, c: char): (parts: seq<string>)
    ensures parts != []
  {
    if s == "" then [""]
    else if s[0] == c then [""] + Split(s[1..], c)
    else var parts := Split(s[1..], c); [[s[0]] + parts[0]] + parts[1..]
  }

  /** `s.split(c, 1)`, `None` if there is no `c` to split at */
  function SplitOnce(s: string, c: char): Option<(string, string)> {
    if s == "" then None
    else if s[0] == c then Some(("", s[1..]))
    else
      match SplitOnce(s[1..], c)
      case None => None
      case Some((before, after)) => Some(([s[0]] + before, after))
  }

  /** `dict` of attribute-value pairs; a later one replaces an earlier one. */
  function Dict(items: seq<string>): Option<map<string, string>> {
    if items == [] then
      Some(map[])
    else
      var n := |items| - 1;
      match (Dict(items[..n]), SplitOnce(items[n], '='))
      case (Some(front), Some((key, val))) => Some(front[key := val])
      case _ => None
  }

  function Attributes(message: string): Option<map<string, string>> {
    if IsAscii(message) then Dict(Split(message, ',')) else None
  }

  // ----- keys and signatures: section 3 of RFC 5802 -----

  function ClientKey(lib: Library, salted: Digest): Digest {
    lib.mac(salted, Octets("Client Key"))
  }

  function StoredKey(lib: Library, salted: Digest): Digest {
    lib.hash(ClientKey(lib, salted))
  }

  function ServerKey(lib: Library, salted: Digest): Digest {
    lib.mac(salted, Octets("Server Key"))
  }

  function AuthMessage(clientFirst: string, serverFirst: string, withoutProof: string): string {
    clientFirst + "," + serverFirst + "," + withoutProof
  }

  function ClientSignature(lib: Library, storedKey: Digest, authMessage: string): Digest {
    lib.mac(storedKey, Octets(authMessage))
  }

  function ServerSignature(lib: Library, serverKey: Digest, authMessage: string): Digest {
    lib.mac(serverKey, Octets(authMessage))
  }

  // ----- the client -----

  const PROTOCOL_VERSION := 0
  const METHOD := "SCRAM-SHA-256"

  datatype Client = Client(
    username: string,            // escaped
    password: Bytes,
    state: nat,
    randomNonce: Option<string>,
    firstClientMessage: Option<string>,
    serverSignature: Option<Digest>)

  function Start(username: string, password: Bytes): Client {
    Client(Escape(username), password, 0, None, None, None)
  }

  /** A refused reply is an authentication error for the error codes 10 to 20. */
  function Checked(reply: Reply): Result<Reply, Error> {
    if reply.success == Some(true) then Ok(reply)
    else if reply.errorCode.None? || reply.error.None? then Err(Other)
    else if 10 <= reply.errorCode.value <= 20 then Err(Auth(reply.error.value))
    else Err(Driver(reply.error.value))
  }

  function FirstMessage(username: string, nonce: string): string {
    "n=" + username + ",r=" + nonce
  }

  type Step = (Client, Result<Option<Outgoing>, Error>)

  function Init(lib: Library, c: Client, response: Option<Reply>, random: Bytes): Step {
    if response.Some? then
      (c, Err(Driver("Unexpected response")))
    else
      var nonce := lib.encode64(random);
      var first := FirstMessage(c.username, nonce);
      var d := c.(randomNonce := Some(nonce), firstClientMessage := Some(first));
      if !IsAscii(first) then (d, Err(Other))
      else (d.(state := c.state + 1), Ok(Some(Initial(PROTOCOL_VERSION, METHOD, "n,," + first))))
  }

  function Read(c: Client, reply: Reply): Step {
    match Checked(reply)
    case Err(e) => (c, Err(e))
    case Ok(_) =>
      if reply.minProtocolVersion.None? || reply.maxProtocolVersion.None? then (c, Err(Other))
      else if !(reply.minProtocolVersion.value <= PROTOCOL_VERSION <= reply.maxProtocolVersion.value) then
        (c, Err(Driver("Unsupported protocol version")))
      else (c.(state := c.state + 1), Ok(Some(Empty)))
  }

  /** What the server's first message says, as far as it can be used */
  datatype Challenge = Challenge(nonce: string, salt: Bytes, iterations: int)

  function ChallengeOf(lib: Library, ownNonce: string, message: string): Result<Challenge, Error> {
    match Attributes(message)
    case None => Err(Other)
    case Some(a) =>
      if "r" !in a then Err(Other)
      else if !(ownNonce <= a["r"]) then Err(Auth("Invalid nonce from server"))
      else if "s" !in a || "i" !in a || lib.decode64(a["s"]).None? || lib.parseInt(a["i"]).None? then Err(Other)
      else Ok(Challenge(a["r"], lib.decode64(a["s"]).value, lib.parseInt(a["i"]).value))
  }

  function WithoutProof(nonce: string): string {
    "c=biws,r=" + nonce
  }

  function Salted(lib: Library, password: Bytes, challenge: Challenge): Digest {
    Derived(lib.mac, password, challenge.salt, challenge.iterations)
  }

  function Proof(lib: Library, salted: Digest, authMessage: string): Bytes {
    XorBytes(ClientKey(lib, salted), ClientSignature(lib, StoredKey(lib, salted), authMessage))
  }

  function Prepare(lib: Library, c: Client, reply: Reply): Step
    requires c.randomNonce.Some? && c.firstClientMessage.Some?
  {
    match Checked(reply)
    case Err(e) => (c, Err(e))
    case Ok(_) =>
      if reply.authentication.None? then (c, Err(Other))
      else
        match ChallengeOf(lib, c.randomNonce.value, reply.authentication.value)
        case Err(e) => (c, Err(e))
        case Ok(challenge) =>
          var withoutProof := WithoutProof(challenge.nonce);
          var authMessage := AuthMessage(c.firstClientMessage.value, reply.authentication.value, withoutProof);
          var salted := Salted(lib, c.password, challenge);
          (c.(state := c.state + 1, serverSignature := Some(ServerSignature(lib, ServerKey(lib, salted), authMessage))),
           Ok(Some(Final(withoutProof + ",p=" + lib.encode64(Proof(lib, salted, authMessage))))))
  }

  function Verify(lib: Library, c: Client, reply: Reply): Step
    requires c.serverSignature.Some?
  {
    match Checked(reply)
    case Err(e) => (c, Err(e))
    case Ok(_) =>
      if reply.authentication.None? then (c, Err(Other))
      else
        match Attributes(reply.authentication.value)
        case None => (c, Err(Other))
        case Some(a) =>
          if "v" !in a || lib.decode64(a["v"]).None? then (c, Err(Other))
          else if lib.decode64(a["v"]).value != c.serverSignature.value then (c, Err(Auth("Invalid server signature")))
          else (c.(state := c.state + 1), Ok(None))
  }

  /** What each state has made of the fields */
  predicate Consistent(c: Client) {
    && (c.state >= 1 ==> c.randomNonce.Some? && c.firstClientMessage.Some?)
    && (c.state >= 3 ==> c.serverSignature.Some?)
  }

  /** `next_message`. A missing response to read is an error of the JSON decoder. */
  function Next(lib: Library, c: Client, response: Option<Reply>, random: Bytes): (next: Step)
    requires Consistent(c)
    ensures Consistent(next.0)
    ensures next.1.Ok? ==> next.0.state == c.state + 1
    ensures next.1.Err? ==> next.0.state == c.state
  {
    if c.state == 0 then Init(lib, c, response, random)
    else if c.state > 3 then (c, Err(Driver("Unexpected handshake state")))
    else if response.None? then (c, Err(Other))
    else if c.state == 1 then Read(c, response.value)
    else if c.state == 2 then Prepare(lib, c, response.value)
    else Verify(lib, c, response.value)
  }

  class HandshakeV1_0 {
    const lib: Library
    const cache: LocalThreadCache
    const username: string
    const password: Bytes
    var randomNonce: Option<string>
    var firstClientMessage: Option<string>
    var serverSignature: Option<Digest>
    var state: nat

    constructor (lib: Library, cache: LocalThreadCache, username: string, password: Bytes)
      ensures this.lib == lib && this.cache == cache
      ensures View() == Start(username, password)
    {
      this.lib, this.cache, this.password := lib, cache, password;
      this.username := Escape(username);
      randomNonce, firstClientMessage, serverSignature, state := None, None, None, 0;
    }

    ghost function View(): Client
      reads this
    {
      Client(username, password, state, randomNonce, firstClientMessage, serverSignature)
    }

    ghost predicate Valid()
      reads this, cache
    {
      Consistent(View()) && cache.Valid(lib.mac)
    }

    method Reset()
      modifies this
      ensures View() == Client(username, password, 0, None, None, None)
    {
      randomNonce, firstClientMessage, serverSignature, state := None, None, None, 0;
    }

    method NextState()
      modifies this`state
      ensures state == old(state) + 1
    {
      state := state + 1;
    }

    method InitConnection(response: Option<Reply>, random: Bytes) returns (message: Result<Option<Outgoing>, Error>)
      modifies this
      ensures (View(), message) == Init(lib, old(View()), response, random)
    {
      if response.Some? {
        return Err(Driver("Unexpected response"));
      }
      randomNonce := Some(lib.encode64(random));
      firstClientMessage := Some(FirstMessage(username, randomNonce.value));
      if !IsAscii(firstClientMessage.value) {
        return Err(Other);
      }
      NextState();
      return Ok(Some(Initial(PROTOCOL_VERSION, METHOD, "n,," + firstClientMessage.value)));
    }

    method ReadResponse(reply: Reply) returns (message: Result<Option<Outgoing>, Error>)
      modifies this`state
      ensures (View(), message) == Read(old(View()), reply)
    {
      var checked := Checked(reply);
      if checked.Err? {
        return Err(checked.error);
      }
      if reply.minProtocolVersion.None? || reply.maxProtocolVersion.None? {
        return Err(Other);
      }
      if !(reply.minProtocolVersion.value <= PROTOCOL_VERSION <= reply.maxProtocolVersion.value) {
        return Err(Driver("Unsupported protocol version"));
      }
      NextState();
      return Ok(Some(Empty));
    }

    method PrepareAuthRequest(reply: Reply) returns (message: Result<Option<Outgoing>, Error>)
      requires Valid() && randomNonce.Some? && firstClientMessage.Some?
      modifies this`state, this`serverSignature, cache
      ensures (View(), message) == Prepare(lib, old(View()), reply)
      ensures cache.Valid(lib.mac)
    {
      var checked := Checked(reply);
      if checked.Err? {
        return Err(checked.error);
      }
      if reply.authentication.None? {
        return Err(Other);
      }
      var challenge := ChallengeOf(lib, randomNonce.value, reply.authentication.value);
      if challenge.Err? {
        return Err(challenge.error);
      }
      var salted := Pbkdf2Hmac(lib.mac, cache, "sha256", password, challenge.value.salt, challenge.value.iterations);
      var withoutProof := WithoutProof(challenge.value.nonce);
      var authMessage := AuthMessage(firstClientMessage.value, reply.authentication.value, withoutProof);
      serverSignature := Some(lib.mac(lib.mac(salted.value, Octets("Server Key")), Octets(authMessage)));
      var clientKey := lib.mac(salted.value, Octets("Client Key"));
      var clientSignature := lib.mac(lib.hash(clientKey), Octets(authMessage));
      var clientProof := XorBytes(clientKey, clientSignature);
      NextState();
      return Ok(Some(Final(withoutProof + ",p=" + lib.encode64(clientProof))));
    }

    method ReadAuthResponse(reply: Reply) returns (message: Result<Option<Outgoing>, Error>)
      requires serverSignature.Some?
      modifies this`state
      ensures (View(), message) == Verify(lib, old(View()), reply)
    {
      var checked := Checked(reply);
      if checked.Err? {
        return Err(checked.error);
      }
      if reply.authentication.None? {
        return Err(Other);
      }
      var attributes := Attributes(reply.authentication.value);
      if attributes.None? || "v" !in attributes.value {
        return Err(Other);
      }
      var signature := lib.decode64(attributes.value["v"]);
      if signature.None? {
        return Err(Other);
      }
      var equal := CompareDigest(signature.value, serverSignature.value);
      if !equal {
        return Err(Auth("Invalid server signature"));
      }
      NextState();
      return Ok(None);
    }

    method NextMessage(response: Option<Reply>, random: Bytes) returns (message: Result<Option<Outgoing>, Error>)
      requires Valid()
      modifies this, cache
      ensures Valid()
      ensures (View(), message) == Next(lib, old(View()), response, random)
    {
      if state == 0 {
        message := InitConnection(response, random);
      } else if state > 3 {
        message := Err(Driver("Unexpected handshake state"));
      } else if response.None? {
        message := Err(Other);
      } else if state == 1 {
        message := ReadResponse(response.value);
      } else if state == 2 {
        message := PrepareAuthRequest(response.value);
      } else {
        message := ReadAuthResponse(response.value);
      }
    }
  }
}
