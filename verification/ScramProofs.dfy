/**
 * The handshake against a server that follows RFC 5802: it completes with both sides convinced. And
 * against any server: it completes only if the server knew the key.
 */
module ScramProofs {
  import opened ByteStrings
  import opened Wrappers
  import opened KeyDerivation
  import opened Scram

  // ----- exclusive or -----

  lemma {:induction false} XorTwice(a: nat, b: nat)
    ensures Xor(Xor(a, b), b) == a
  {
    if a != 0 || b != 0 {
      XorTwice(a / 2, b / 2);
      XorHalves(a, b);
      XorHalves(Xor(a, b), b);
    } else {
      assert Xor(0, 0) == 0;
    }
  }

  lemma {:induction false} XorBytesTwice(a: Bytes, b: Bytes)
    requires |a| == |b|
    ensures XorBytes(XorBytes(a, b), b) == a
  {
    if a != [] {
      var n := |a| - 1;
      XorBytesTwice(a[..n], b[..n]);
      XorTwice(a[n], b[n]);
      assert XorBytes(a, b)[..n] == XorBytes(a[..n], b[..n]);
      assert a == a[..n] + [a[n]];
    }
  }

  // ----- user names -----

  /** The server's reading of an escaped name: `=` starts `=3D` or `=2C` and nothing else. */
  function Unescape(s: string): Option<string> {
    if s == "" then
      Some("")
    else
      var code := s[0] == '=';
      if code && (|s| < 3 || (s[1..3] != "3D" && s[1..3] != "2C")) then
        None
      else
        match Unescape(if code then s[3..] else s[1..])
        case None => None
        case Some(rest) => Some([if !code then s[0] else if s[1..3] == "3D" then '=' else ','] + rest)
  }

  lemma {:induction false} ReplaceConcat(s: string, t: string, c: char, into: string)
    ensures Replace(s + t, c, into) == Replace(s, c, into) + Replace(t, c, into)
  {
    if s == "" {
      assert s + t == t;
    } else {
      ReplaceConcat(s[1..], t, c, into);
      assert (s + t)[1..] == s[1..] + t;
      var head := if s[0] == c then into else [s[0]];
      assert head + (Replace(s[1..], c, into) + Replace(t, c, into))
        == head + Replace(s[1..], c, into) + Replace(t, c, into);
    }
  }

  function EscapedChar(c: char): string {
    if c == '=' then "=3D" else if c == ',' then "=2C" else [c]
  }

  lemma EscapeFirst(u: string)
    requires u != ""
    ensures Escape(u) == EscapedChar(u[0]) + Escape(u[1..])
  {
    var head := if u[0] == '=' then "=3D" else [u[0]];
    ReplaceConcat(head, Replace(u[1..], '=', "=3D"), ',', "=2C");
    ReplaceOne(head);
  }

  lemma ReplaceOne(head: string)
    requires head == "=3D" || (|head| == 1 && head[0] != '=')
    ensures Replace(head, ',', "=2C") == if head == "=3D" then head else EscapedChar(head[0])
  {
    if head == "=3D" {
      assert head[1..] == "3D" && "3D"[1..] == "D" && "D"[1..] == "";
      assert Replace("", ',', "=2C") == "";
      assert Replace("D", ',', "=2C") == "D";
      assert Replace("3D", ',', "=2C") == "3D";
    } else {
      assert head[1..] == "";
    }
  }

  /** An escaped name can be read back, and it cannot end an attribute. */
  lemma {:induction false} UsernameRoundTrip(u: string)
    ensures Unescape(Escape(u)) == Some(u) && ',' !in Escape(u)
    ensures IsAscii(Escape(u)) <==> IsAscii(u)
  {
    hide Escape, Unescape, IsAscii;
    if u == "" {
      EscapedNothing();
    } else {
      EscapeFirst(u);
      UsernameRoundTrip(u[1..]);
      var e, rest := EscapedChar(u[0]), Escape(u[1..]);
      UnescapeFirst(u[0], rest);
      OneEscapedIsAscii(u[0]);
      AsciiParts(e, rest);
      AsciiParts([u[0]], u[1..]);
      assert u == [u[0]] + u[1..];
    }
  }

  lemma EscapedNothing()
    ensures Escape("") == "" && Unescape("") == Some("") && IsAscii("")
  {
  }

  lemma OneEscapedIsAscii(c: char)
    ensures IsAscii(EscapedChar(c)) <==> IsAscii([c])
    ensures ',' !in EscapedChar(c)
  {
    assert IsAscii([c]) <==> [c][0] as int < 128;
    assert EscapedChar(c)[0] == c || c == ',';
  }

  lemma UnescapeFirst(c: char, rest: string)
    requires Unescape(rest).Some?
    ensures Unescape(EscapedChar(c) + rest) == Some([c] + Unescape(rest).value)
  {
    var e := EscapedChar(c);
    assert (e + rest)[|e|..] == rest;
    if |e| == 3 {
      assert (e + rest)[1..3] == e[1..3];
      assert "=3D"[1..3] == "3D" && "=2C"[1..3] == "2C";
    }
  }

  lemma AsciiParts(s: string, t: string)
    ensures IsAscii(s + t) <==> IsAscii(s) && IsAscii(t)
  {
    assert IsAscii(s + t) ==> IsAscii(s) && IsAscii(t) by {
      if IsAscii(s + t) {
        assert forall i :: 0 <= i < |s| ==> (s + t)[i] == s[i];
        assert forall i :: 0 <= i < |t| ==> (s + t)[|s| + i] == t[i];
      }
    }
  }

  // ----- attribute lists -----

  lemma {:induction false} SplitNowhere(s: string, c: char)
    requires c !in s
    ensures Split(s, c) == [s]
  {
    if s != "" {
      SplitNowhere(s[1..], c);
      assert [s[0]] + s[1..] == s;
    }
  }

  lemma {:induction false} SplitOnceAt(k: string, v: string)
    requires '=' !in k
    ensures SplitOnce(k + "=" + v, '=') == Some((k, v))
  {
    if k == "" {
      assert k + "=" + v == "=" + v;
    } else {
      SplitOnceAt(k[1..], v);
      assert (k + "=" + v)[1..] == k[1..] + "=" + v;
      assert [k[0]] + k[1..] == k;
    }
  }

  lemma DictLast(items: seq<string>, k: string, v: string)
    requires '=' !in k && Dict(items).Some?
    ensures Dict(items + [k + "=" + v]) == Some(Dict(items).value[k := v])
  {
    SplitOnceAt(k, v);
    var all := items + [k + "=" + v];
    assert all[..|all| - 1] == items;
  }

  lemma OneAttribute(k: string, v: string)
    requires '=' !in k && ',' !in k && ',' !in v && IsAscii(k) && IsAscii(v)
    ensures Attributes(k + "=" + v) == Some(map[k := v])
  {
    AsciiParts(k, "=");
    AsciiParts(k + "=", v);
    SplitNowhere(k + "=" + v, ',');
    DictLast([], k, v);
    assert [] + [k + "=" + v] == [k + "=" + v];
  }

  /** A list with one attribute more at its end */
  lemma MoreAttributes(front: string, k: string, v: string)
    requires '=' !in k && ',' !in k && ',' !in v && IsAscii(k) && IsAscii(v) && IsAscii(front)
    requires Attributes(front).Some?
    ensures Attributes(front + "," + k + "=" + v) == Some(Attributes(front).value[k := v])
  {
    var item := k + "=" + v;
    assert front + "," + k + "=" + v == front + "," + item;
    AsciiParts(k, "=");
    AsciiParts(k + "=", v);
    AsciiParts(front, ",");
    AsciiParts(front + ",", item);
    SplitLast(front, item);
    DictLast(Split(front, ','), k, v);
  }

  lemma {:induction false} SplitLast(front: string, item: string)
    requires ',' !in item
    ensures Split(front + "," + item, ',') == Split(front, ',') + [item]
  {
    if front == "" {
      SplitNowhere(item, ',');
      assert front + "," + item == "," + item;
    } else {
      SplitLast(front[1..], item);
      assert (front + "," + item)[1..] == front[1..] + "," + item;
    }
  }

  // ----- a server that follows RFC 5802 -----

  /** What the server keeps of a user, never the password itself, and its own nonce of this exchange */
  datatype Server = Server(
    username: string, salt: Bytes, iterationText: string, storedKey: Digest, serverKey: Digest, nonce: string)

  /** What a password is salted to; a count that is not positive, which RFC 5802 does not have, counts as one. */
  function SaltedPassword(lib: Library, password: Bytes, salt: Bytes, i: int): Digest {
    Hi(lib.mac, password, salt, if i < 1 then 1 else i)
  }

  /** The server's record was made from this user name and password, as section 3 of RFC 5802 has it. */
  ghost predicate Registered(lib: Library, srv: Server, username: string, password: Bytes) {
    && srv.username == username
    && lib.parseInt(srv.iterationText).Some?
    && var salted := SaltedPassword(lib, password, srv.salt, lib.parseInt(srv.iterationText).value);
       && srv.storedKey == lib.hash(lib.mac(salted, Octets("Client Key")))
       && srv.serverKey == lib.mac(salted, Octets("Server Key"))
  }

  predicate IsValue(s: string) {
    ',' !in s && IsAscii(s)
  }

  /** The libraries are what they should be, and the server's numbers and nonces are printed without commas. */
  ghost predicate Lawful(lib: Library, srv: Server) {
    && (forall b: Bytes :: lib.decode64(lib.encode64(b)) == Some(b) && IsValue(lib.encode64(b)))
    && IsValue(srv.iterationText) && IsValue(srv.nonce)
  }

  function ServerFirst(lib: Library, srv: Server, authentication: string): Option<string> {
    if !("n,," <= authentication) then
      None
    else
      match Attributes(authentication[3..])
      case None => None
      case Some(a) =>
        if "n" in a && "r" in a && Unescape(a["n"]) == Some(srv.username) then
          Some(FirstOf(a["r"] + srv.nonce, lib.encode64(srv.salt), srv.iterationText))
        else
          None
  }

  function FirstOf(nonce: string, salt: string, iterations: string): string {
    "r" + "=" + nonce + "," + "s" + "=" + salt + "," + "i" + "=" + iterations
  }

  /**
   * The server signs what it received first without its first three characters, what it answered, and
   * what it receives now up to the proof. It accepts when what it recovers from the proof is the client's
   * key, and shows that it has its own.
   */
  function ServerFinal(lib: Library, srv: Server, received: string, answered: string, final: string): Option<string> {
    var parts := Split(final, ',');
    var last := parts[|parts| - 1];
    match (Attributes(final), Attributes(answered))
    case (Some(a), Some(first)) =>
      if "c" !in a || "r" !in a || "p" !in a || "r" !in first || a["c"] != "biws" || a["r"] != first["r"] then None
      else if |last| >= |final| || lib.decode64(a["p"]).None? || |lib.decode64(a["p"]).value| != DIGEST_SIZE then None
      else if !("n,," <= received) then None
      else
        var signed := Octets(received[3..] + "," + answered + "," + final[..|final| - |last| - 1]);
        var recovered := XorBytes(lib.decode64(a["p"]).value, lib.mac(srv.storedKey, signed));
        if lib.hash(recovered) != srv.storedKey then None
        else Some("v" + "=" + lib.encode64(lib.mac(srv.serverKey, signed)))
    case _ => None
  }

  lemma FirstMessageIsRead(lib: Library, srv: Server, username: string, nonce: string)
    requires srv.username == username && IsAscii(username) && IsValue(nonce)
    ensures IsAscii(FirstMessage(Escape(username), nonce))
    ensures ServerFirst(lib, srv, "n,," + FirstMessage(Escape(username), nonce))
         == Some(FirstOf(nonce + srv.nonce, lib.encode64(srv.salt), srv.iterationText))
  {
    hide Attributes, Escape, Unescape;
    UsernameRoundTrip(username);
    var front := "n" + "=" + Escape(username);
    OneAttribute("n", Escape(username));
    AsciiParts("n=", Escape(username));
    MoreAttributes(front, "r", nonce);
    assert FirstMessage(Escape(username), nonce) == front + "," + "r" + "=" + nonce;
    AsciiParts("n=" + Escape(username), ",r=");
    AsciiParts("n=" + Escape(username) + ",r=", nonce);
    assert ("n,," + FirstMessage(Escape(username), nonce))[3..] == FirstMessage(Escape(username), nonce);
  }

  lemma FirstOfIsRead(nonce: string, salt: string, iterations: string)
    requires IsValue(nonce) && IsValue(salt) && IsValue(iterations)
    ensures Attributes(FirstOf(nonce, salt, iterations)) == Some(map["r" := nonce, "s" := salt, "i" := iterations])
  {
    hide Attributes;
    var r := "r" + "=" + nonce;
    OneAttribute("r", nonce);
    AsciiParts("r=", nonce);
    MoreAttributes(r, "s", salt);
    var rs := r + "," + "s" + "=" + salt;
    AsciiParts(r, ",s=");
    assert r + ",s=" + salt == rs;
    AsciiParts(r + ",s=", salt);
    MoreAttributes(rs, "i", iterations);
  }

  /** The message with the proof, and the message without it that the server cuts off it */
  lemma FinalIsRead(nonce: string, proof: string)
    requires IsValue(nonce) && IsValue(proof)
    ensures var final := WithoutProof(nonce) + ",p=" + proof;
            var parts := Split(final, ',');
            && Attributes(final) == Some(map["c" := "biws", "r" := nonce, "p" := proof])
            && |parts[|parts| - 1]| < |final|
            && final[..|final| - |parts[|parts| - 1]| - 1] == WithoutProof(nonce)
  {
    hide Attributes, Split;
    var c := "c" + "=" + "biws";
    OneAttribute("c", "biws");
    MoreAttributes(c, "r", nonce);
    var cr := c + "," + "r" + "=" + nonce;
    assert cr == WithoutProof(nonce);
    AsciiParts("c=biws,r=", nonce);
    MoreAttributes(cr, "p", proof);
    var final := WithoutProof(nonce) + ",p=" + proof;
    assert final == cr + "," + "p" + "=" + proof;
    assert final == cr + "," + ("p=" + proof);
    SplitLast(cr, "p=" + proof);
  }

  // ----- the two together -----

  predicate Accepts(reply: Reply, authentication: string) {
    reply.success == Some(true) && reply.authentication == Some(authentication)
  }

  predicate Greets(reply: Reply) {
    && reply.success == Some(true) && reply.minProtocolVersion.Some? && reply.maxProtocolVersion.Some?
    && reply.minProtocolVersion.value <= 0 <= reply.maxProtocolVersion.value
  }

  /** The messages of one exchange, as functions of what the two sides know */
  function FirstSent(lib: Library, username: string, random: Bytes): string {
    FirstMessage(Escape(username), lib.encode64(random))
  }

  function FirstReceived(lib: Library, srv: Server, random: Bytes): string {
    FirstOf(lib.encode64(random) + srv.nonce, lib.encode64(srv.salt), srv.iterationText)
  }

  /** What both sides sign */
  function Signed(lib: Library, srv: Server, username: string, random: Bytes): string {
    var nonce := lib.encode64(random) + srv.nonce;
    FirstSent(lib, username, random) + "," + FirstReceived(lib, srv, random) + "," + WithoutProof(nonce)
  }

  function LastReceived(lib: Library, srv: Server, username: string, random: Bytes): string {
    "v" + "=" + lib.encode64(lib.mac(srv.serverKey, Octets(Signed(lib, srv, username, random))))
  }

  ghost function SaltedOf(lib: Library, srv: Server, password: Bytes): Digest
    requires lib.parseInt(srv.iterationText).Some?
  {
    SaltedPassword(lib, password, srv.salt, lib.parseInt(srv.iterationText).value)
  }

  lemma FirstExchange(lib: Library, srv: Server, username: string, password: Bytes, random: Bytes)
    requires Lawful(lib, srv) && Registered(lib, srv, username, password) && IsAscii(username)
    ensures var (c, sent) := Next(lib, Start(username, password), None, random);
            && sent == Ok(Some(Initial(PROTOCOL_VERSION, METHOD, "n,," + FirstSent(lib, username, random))))
            && c == Client(Escape(username), password, 1, Some(lib.encode64(random)),
              Some(FirstSent(lib, username, random)), None)
    ensures ServerFirst(lib, srv, "n,," + FirstSent(lib, username, random)) == Some(FirstReceived(lib, srv, random))
  {
    FirstMessageIsRead(lib, srv, username, lib.encode64(random));
  }

  lemma ValuesJoin(s: string, t: string)
    requires IsValue(s) && IsValue(t)
    ensures IsValue(s + t)
  {
    AsciiParts(s, t);
  }

  /** The client's proof of the challenge, and the server's acceptance of the proof */
  lemma ProofIsAccepted(lib: Library, srv: Server, username: string, password: Bytes, random: Bytes)
    requires Lawful(lib, srv) && Registered(lib, srv, username, password)
    ensures var salted, signed := SaltedOf(lib, srv, password), Signed(lib, srv, username, random);
            var proof := Proof(lib, salted, signed);
            var final := WithoutProof(lib.encode64(random) + srv.nonce) + ",p=" + lib.encode64(proof);
            && ChallengeOf(lib, lib.encode64(random), FirstReceived(lib, srv, random))
                 == Ok(Challenge(lib.encode64(random) + srv.nonce, srv.salt, lib.parseInt(srv.iterationText).value))
            && |proof| == DIGEST_SIZE
            && XorBytes(proof, lib.mac(srv.storedKey, Octets(signed))) == lib.mac(salted, Octets("Client Key"))
            && ServerFinal(lib, srv, "n,," + FirstSent(lib, username, random), FirstReceived(lib, srv, random), final)
                 == Some(LastReceived(lib, srv, username, random))
  {
    hide Attributes, Split, Derived, XorBytes, FirstOf, FirstMessage, Escape, Octets, Hi;
    var nonce := lib.encode64(random) + srv.nonce;
    var salted, signed := SaltedOf(lib, srv, password), Signed(lib, srv, username, random);
    ValuesJoin(lib.encode64(random), srv.nonce);
    FirstOfIsRead(nonce, lib.encode64(srv.salt), srv.iterationText);
    FinalIsRead(nonce, lib.encode64(Proof(lib, salted, signed)));
    XorBytesTwice(ClientKey(lib, salted), ClientSignature(lib, srv.storedKey, signed));
    assert ("n,," + FirstSent(lib, username, random))[3..] == FirstSent(lib, username, random);
  }

  /**
   * With the right password the handshake completes, whatever the random bytes. The client opens with
   * its protocol version and method; given what the server answers to that, it sends a proof; the server
   * accepts the proof, and its answer to it ends the handshake with `None`.
   */
  lemma Completeness(
      lib: Library, srv: Server, username: string, password: Bytes, random: Bytes, hello: Reply, challenge: Reply,
      verdict: Reply)
    requires Lawful(lib, srv) && Registered(lib, srv, username, password) && IsAscii(username) && Greets(hello)
    ensures var (c1, sent1) := Next(lib, Start(username, password), None, random);
            && sent1.Ok? && sent1.value.Some? && sent1.value.value.Initial?
            && var opening := sent1.value.value;
            && opening.protocolVersion == 0 && opening.authenticationMethod == "SCRAM-SHA-256"
            && var (c2, sent2) := Next(lib, c1, Some(hello), random);
            && sent2 == Ok(Some(Empty))
            && var first := ServerFirst(lib, srv, opening.authentication);
            && first == Some(FirstReceived(lib, srv, random))
            && (Accepts(challenge, first.value) ==>
                  var (c3, sent3) := Next(lib, c2, Some(challenge), random);
                  && sent3.Ok? && sent3.value.Some? && sent3.value.value.Final?
                  && var last := ServerFinal(
                           lib, srv, opening.authentication, first.value, sent3.value.value.authentication);
                  && last == Some(LastReceived(lib, srv, username, random))
                  && (Accepts(verdict, last.value) ==> Next(lib, c3, Some(verdict), random).1 == Ok(None)))
  {
    hide Attributes, Hi, XorBytes, FirstOf, FirstMessage, Escape, ServerFirst, ServerFinal, ChallengeOf, Octets;
    FirstExchange(lib, srv, username, password, random);
    ProofIsAccepted(lib, srv, username, password, random);
    OneAttribute("v", lib.encode64(lib.mac(srv.serverKey, Octets(Signed(lib, srv, username, random)))));
  }

  // ----- against any server -----

  /** All calls of a handshake, one after the other, every one but perhaps the last without an exception */
  function Calls(lib: Library, c: Client, responses: seq<Option<Reply>>, random: Bytes): (last: Step)
    requires Consistent(c) && responses != []
    ensures Consistent(last.0)
    decreases |responses|
  {
    var step := Next(lib, c, responses[0], random);
    if |responses| == 1 || step.1.Err? then step else Calls(lib, step.0, responses[1..], random)
  }

  /** `None` is the answer of the fourth call only, and there is no fifth. */
  lemma {:induction false} CallsCount(lib: Library, c: Client, responses: seq<Option<Reply>>, random: Bytes)
    requires Consistent(c) && responses != [] && Calls(lib, c, responses, random).1.Ok?
    ensures c.state + |responses| <= 4
    ensures Calls(lib, c, responses, random).0.state == c.state + |responses|
    ensures Calls(lib, c, responses, random).1.value == None <==> c.state + |responses| == 4
    decreases |responses|
  {
    var step := Next(lib, c, responses[0], random);
    if |responses| > 1 {
      CallsCount(lib, step.0, responses[1..], random);
    }
  }

  /** The signature is the one that only somebody with the server key of this exchange can make. */
  predicate Proven(
      lib: Library, username: string, password: Bytes, random: Bytes, first: string, signature: Option<Bytes>)
  {
    var own, a := lib.encode64(random), Attributes(first);
    && a.Some? && "r" in a.value && "s" in a.value && "i" in a.value && own <= a.value["r"]
    && var salt, i := lib.decode64(a.value["s"]), lib.parseInt(a.value["i"]);
       && salt.Some? && i.Some?
       && var serverKey := lib.mac(SaltedPassword(lib, password, salt.value, i.value), Octets("Server Key"));
          var sent := "n=" + Escape(username) + ",r=" + own;
          var signed := sent + "," + first + "," + "c=biws,r=" + a.value["r"];
          signature == Some(lib.mac(serverKey, Octets(signed)))
  }

  /**
   * Whatever replies come: a handshake that ends with `None` read exactly three of them, all of them
   * successes, and the last one carried the signature of this very exchange.
   */
  lemma CompletedOnlyWithSignature(
      lib: Library, username: string, password: Bytes, responses: seq<Option<Reply>>, random: Bytes)
    requires responses != [] && Calls(lib, Start(username, password), responses, random).1 == Ok(None)
    ensures |responses| == 4 && responses[0] == None
    ensures forall i :: 1 <= i < 4 ==> responses[i].Some? && responses[i].value.success == Some(true)
    ensures Greets(responses[1].value)
    ensures responses[2].value.authentication.Some? && responses[3].value.authentication.Some?
    ensures var a := Attributes(responses[3].value.authentication.value);
            && a.Some? && "v" in a.value
            && Proven(lib, username, password, random, responses[2].value.authentication.value,
              lib.decode64(a.value["v"]))
  {
    hide Attributes, Derived, XorBytes, FirstMessage, Escape, ChallengeOf, Proven, Octets;
    var c0 := Start(username, password);
    CallsCount(lib, c0, responses, random);
    var c1 := Next(lib, c0, responses[0], random).0;
    var c2 := Next(lib, c1, responses[1], random).0;
    var c3 := Next(lib, c2, responses[2], random).0;
    assert Calls(lib, c0, responses, random) == Calls(lib, c1, responses[1..], random);
    assert Calls(lib, c1, responses[1..], random) == Calls(lib, c2, responses[2..], random) by {
      assert responses[1..][1..] == responses[2..];
    }
    assert Calls(lib, c2, responses[2..], random) == Calls(lib, c3, responses[3..], random) by {
      assert responses[2..][1..] == responses[3..];
    }
    assert Calls(lib, c3, responses[3..], random) == Next(lib, c3, responses[3], random);
    SignatureProves(lib, username, password, random, responses[2].value.authentication.value);
  }

  /** The signature the client computes is the one of the exchange. */
  lemma SignatureProves(lib: Library, username: string, password: Bytes, random: Bytes, first: string)
    requires ChallengeOf(lib, lib.encode64(random), first).Ok?
    ensures var own := lib.encode64(random);
            var challenge := ChallengeOf(lib, own, first).value;
            var signed := AuthMessage(FirstMessage(Escape(username), own), first, WithoutProof(challenge.nonce));
            var serverKey := ServerKey(lib, Salted(lib, password, challenge));
            Proven(lib, username, password, random, first, Some(ServerSignature(lib, serverKey, signed)))
  {
    hide Attributes, Escape, Octets, Hi;
    var own := lib.encode64(random);
    var challenge := ChallengeOf(lib, own, first).value;
    var both := "n=" + Escape(username) + ",r=" + own + "," + first + ",";
    assert both + ("c=biws,r=" + challenge.nonce) == both + "c=biws,r=" + challenge.nonce;
  }

  // ----- how a handshake ends with an authentication error -----

  /** The first `k` calls all got an answer. */
  predicate Answered(lib: Library, c: Client, responses: seq<Option<Reply>>, k: nat, random: Bytes)
    requires Consistent(c) && k <= |responses|
  {
    k == 0 || Calls(lib, c, responses[..k], random).1.Ok?
  }

  /** The client before call `k` */
  function At(lib: Library, c: Client, responses: seq<Option<Reply>>, k: nat, random: Bytes): (d: Client)
    requires Consistent(c) && k <= |responses|
    ensures Consistent(d)
  {
    if k == 0 then c else Calls(lib, c, responses[..k], random).0
  }

  /** One call fewer, after an answer to the first */
  lemma FirstAnswered(lib: Library, c: Client, responses: seq<Option<Reply>>, k: nat, random: Bytes)
    requires Consistent(c) && 0 < k <= |responses| && Next(lib, c, responses[0], random).1.Ok?
    ensures var d := Next(lib, c, responses[0], random).0;
            && Answered(lib, c, responses, k, random) == Answered(lib, d, responses[1..], k - 1, random)
            && At(lib, c, responses, k, random) == At(lib, d, responses[1..], k - 1, random)
  {
    hide Next;
    assert responses[..k][1..] == responses[1..][..k - 1];
  }

  /** A call that raises ends the handshake, whatever responses are still there. */
  lemma {:induction false} RaisedAt(lib: Library, c: Client, responses: seq<Option<Reply>>, k: nat, random: Bytes)
    requires Consistent(c) && k < |responses| && Answered(lib, c, responses, k, random)
    requires Next(lib, At(lib, c, responses, k, random), responses[k], random).1.Err?
    ensures Calls(lib, c, responses, random) == Next(lib, At(lib, c, responses, k, random), responses[k], random)
    decreases k
  {
    hide Next;
    if k > 0 {
      assert Next(lib, c, responses[0], random).1.Ok?;
      FirstAnswered(lib, c, responses, k, random);
      RaisedAt(lib, Next(lib, c, responses[0], random).0, responses[1..], k - 1, random);
    }
  }

  /** The call that raised */
  lemma {:induction false} RaisingCall(lib: Library, c: Client, responses: seq<Option<Reply>>, random: Bytes)
    returns (k: nat)
    requires Consistent(c) && responses != [] && Calls(lib, c, responses, random).1.Err?
    ensures k < |responses| && Answered(lib, c, responses, k, random)
    ensures Calls(lib, c, responses, random) == Next(lib, At(lib, c, responses, k, random), responses[k], random)
    decreases |responses|
  {
    hide Next;
    var step := Next(lib, c, responses[0], random);
    if step.1.Err? {
      k := 0;
    } else {
      var rest := RaisingCall(lib, step.0, responses[1..], random);
      k := rest + 1;
      FirstAnswered(lib, c, responses, k, random);
    }
  }

  lemma StateAt(lib: Library, c: Client, responses: seq<Option<Reply>>, k: nat, random: Bytes)
    requires Consistent(c) && k <= |responses| && Answered(lib, c, responses, k, random)
    ensures At(lib, c, responses, k, random).state == c.state + k
  {
    if k > 0 {
      CallsCount(lib, c, responses[..k], random);
    }
  }

  predicate Refuses(reply: Reply) {
    reply.success != Some(true) && reply.errorCode.Some? && reply.error.Some?
  }

  /** The server's challenge carries a nonce that does not start with the client's. */
  predicate ForeignNonce(reply: Reply, own: string) {
    && reply.success == Some(true) && reply.authentication.Some?
    && var a := Attributes(reply.authentication.value);
       a.Some? && "r" in a.value && !(own <= a.value["r"])
  }

  /** The server's last message carries a signature that is not the expected one. */
  predicate WrongSignature(lib: Library, reply: Reply, expected: Digest) {
    && reply.success == Some(true) && reply.authentication.Some?
    && var a := Attributes(reply.authentication.value);
       && a.Some? && "v" in a.value
       && lib.decode64(a.value["v"]).Some? && lib.decode64(a.value["v"]).value != expected
  }

  /** The reply to call `k` of a handshake denies the user with this message. */
  predicate Denies(lib: Library, c: Client, k: nat, response: Option<Reply>, message: string)
    requires Consistent(c)
  {
    && c.state == k && response.Some? && 1 <= k <= 3
    && var reply := response.value;
       || (Refuses(reply) && 10 <= reply.errorCode.value <= 20 && message == reply.error.value)
       || (k == 2 && ForeignNonce(reply, c.randomNonce.value) && message == "Invalid nonce from server")
       || (k == 3 && WrongSignature(lib, reply, c.serverSignature.value) && message == "Invalid server signature")
  }

  lemma DeniedExactly(lib: Library, c: Client, response: Option<Reply>, message: string, random: Bytes)
    requires Consistent(c)
    ensures Next(lib, c, response, random).1 == Err(Auth(message)) <==> Denies(lib, c, c.state, response, message)
  {
    hide Attributes, Derived, XorBytes, FirstMessage, Escape, AuthMessage, IsAscii;
  }

  /** A refusal, whichever reply it is, ends the handshake: with an authentication error for the codes 10 to 20. */
  lemma RefusalEndsHandshake(
      lib: Library, username: string, password: Bytes, responses: seq<Option<Reply>>, k: nat, random: Bytes)
    requires 1 <= k <= 3 && k < |responses| && Answered(lib, Start(username, password), responses, k, random)
    requires responses[k].Some? && Refuses(responses[k].value)
    ensures var reply := responses[k].value;
            Calls(lib, Start(username, password), responses, random).1
            == Err(if 10 <= reply.errorCode.value <= 20 then Auth(reply.error.value) else Driver(reply.error.value))
  {
    var c0 := Start(username, password);
    StateAt(lib, c0, responses, k, random);
    hide Calls, Start, Attributes, ChallengeOf;
    RaisedAt(lib, c0, responses, k, random);
  }

  /**
   * Whatever replies come: a handshake ends with an authentication error exactly if one of the replies
   * to its second, third and fourth call denies the user, all calls before it having been answered.
   */
  lemma AuthErrorsExactly(
      lib: Library, username: string, password: Bytes, responses: seq<Option<Reply>>, message: string, random: Bytes)
    requires responses != []
    ensures var c0 := Start(username, password);
            Calls(lib, c0, responses, random).1 == Err(Auth(message))
            <==> exists k: nat :: k < |responses| && Answered(lib, c0, responses, k, random)
                                  && Denies(lib, At(lib, c0, responses, k, random), k, responses[k], message)
  {
    hide Next, Calls, Denies, Start;
    var c0 := Start(username, password);
    assert c0.state == 0 && Consistent(c0) by {
      StartsAtZero(username, password);
    }
    if Calls(lib, c0, responses, random).1 == Err(Auth(message)) {
      var k := RaisingCall(lib, c0, responses, random);
      StateAt(lib, c0, responses, k, random);
      DeniedExactly(lib, At(lib, c0, responses, k, random), responses[k], message, random);
    }
    forall k: nat | k < |responses| && Answered(lib, c0, responses, k, random)
                    && Denies(lib, At(lib, c0, responses, k, random), k, responses[k], message)
      ensures Calls(lib, c0, responses, random).1 == Err(Auth(message))
    {
      StateAt(lib, c0, responses, k, random);
      DeniedExactly(lib, At(lib, c0, responses, k, random), responses[k], message, random);
      RaisedAt(lib, c0, responses, k, random);
    }
  }

  /** The call meets one of the driver's other errors. */
  predicate Fails(c: Client, response: Option<Reply>, message: string) {
    || (c.state == 0 && response.Some? && message == "Unexpected response")
    || (c.state > 3 && message == "Unexpected handshake state")
    || (1 <= c.state <= 3 && response.Some?
        && var reply := response.value;
           || (Refuses(reply) && !(10 <= reply.errorCode.value <= 20) && message == reply.error.value)
           || (c.state == 1 && OtherVersions(reply) && message == "Unsupported protocol version"))
  }

  /** The server greets with a range of versions that does not have 0 in it. */
  predicate OtherVersions(reply: Reply) {
    && reply.success == Some(true) && reply.minProtocolVersion.Some? && reply.maxProtocolVersion.Some?
    && !(reply.minProtocolVersion.value <= 0 <= reply.maxProtocolVersion.value)
  }

  /** One call: its driver errors, and what else is raised is none of the driver's own exceptions. */
  lemma FailsExactly(lib: Library, c: Client, response: Option<Reply>, message: string, random: Bytes)
    requires Consistent(c)
    ensures Next(lib, c, response, random).1 == Err(Driver(message)) <==> Fails(c, response, message)
  {
    hide Attributes, Derived, XorBytes, FirstMessage, Escape, AuthMessage, IsAscii, ChallengeOf;
    if c.state == 2 && response.Some? && response.value.authentication.Some? {
      ChallengeErrors(lib, c.randomNonce.value, response.value.authentication.value);
    }
  }

  lemma ChallengeErrors(lib: Library, own: string, message: string)
    ensures ChallengeOf(lib, own, message).Err? ==> !ChallengeOf(lib, own, message).error.Driver?
  {
  }

  /** Whatever replies come: a handshake ends with a driver error exactly if one of its calls meets one. */
  lemma DriverErrorsExactly(
      lib: Library, username: string, password: Bytes, responses: seq<Option<Reply>>, message: string, random: Bytes)
    requires responses != []
    ensures var c0 := Start(username, password);
            Calls(lib, c0, responses, random).1 == Err(Driver(message))
            <==> exists k: nat :: k < |responses| && Answered(lib, c0, responses, k, random)
                                  && Fails(At(lib, c0, responses, k, random), responses[k], message)
  {
    hide Next, Calls, Fails, Start;
    var c0 := Start(username, password);
    assert c0.state == 0 && Consistent(c0) by {
      StartsAtZero(username, password);
    }
    if Calls(lib, c0, responses, random).1 == Err(Driver(message)) {
      var k := RaisingCall(lib, c0, responses, random);
      FailsExactly(lib, At(lib, c0, responses, k, random), responses[k], message, random);
    }
    forall k: nat | k < |responses| && Answered(lib, c0, responses, k, random)
                    && Fails(At(lib, c0, responses, k, random), responses[k], message)
      ensures Calls(lib, c0, responses, random).1 == Err(Driver(message))
    {
      FailsExactly(lib, At(lib, c0, responses, k, random), responses[k], message, random);
      RaisedAt(lib, c0, responses, k, random);
    }
  }

  lemma StartsAtZero(username: string, password: Bytes)
    ensures Start(username, password).state == 0 && Consistent(Start(username, password))
  {
  }

  /** A user name that is not ASCII cannot even be sent: the handshake starts exactly for the others. */
  lemma NamesThatStart(lib: Library, username: string, password: Bytes, random: Bytes)
    requires IsAscii(lib.encode64(random))
    ensures Next(lib, Start(username, password), None, random).1.Ok? <==> IsAscii(username)
  {
    UsernameRoundTrip(username);
    AsciiParts("n=", Escape(username));
    AsciiParts("n=" + Escape(username), ",r=");
    AsciiParts("n=" + Escape(username) + ",r=", lib.encode64(random));
  }

  /** A user name with an accent, as its two bytes in UTF-8 */
  lemma AccentCannotStart(lib: Library, password: Bytes, random: Bytes)
    ensures Next(lib, Start("\U{00c3}\U{00a9}", password), None, random).1 == Err(Other)
  {
    var username := "\U{00c3}\U{00a9}";
    assert username[0] as int == 195;
    UsernameRoundTrip(username);
    AsciiParts("n=", Escape(username));
    AsciiParts("n=" + Escape(username), ",r=");
    AsciiParts("n=" + Escape(username) + ",r=", lib.encode64(random));
  }
}
