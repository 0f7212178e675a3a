/**
 * How rethinkdb/ast.py sends host data and gets it back: `expr` and `build` turn a value into a term,
 * the server evaluates the term, and `ReQLDecoder` makes a host value of the answer. Base64 is a
 * parameter, and numbers are integers.
 */
module ValueEncoding {
  import opened Wrappers
  import opened ByteStrings
  import opened JsonText

  /** A dictionary key; only strings can be sent. */
  datatype Key = Text(s: string) | OtherKey(id: int)

  datatype Pair = Pair(key: Key, value: Host)

  /** Nested host data */
  datatype Host =
    | None_
    | Flag(b: bool)
    | Number(n: int)
    | Word(s: string)
    | Binary(bytes: Bytes)
    | List(items: seq<Host>)
    | Dict(pairs: seq<Pair>)

  datatype Base64 = Base64(encode: Bytes -> string, decode: string -> Option<Bytes>)

  ghost predicate Lawful(c: Base64) {
    forall b: Bytes :: c.decode(c.encode(b)) == Some(b)
  }

  // ----- expr and build -----

  datatype Field = Field(key: string, value: Term)

  /** The terms `expr` makes of data */
  datatype Term =
    | Datum(json: Json)
    | BinaryTerm(data: string)
    | MakeArray(args: seq<Term>)
    | MakeObj(optargs: seq<Field>)

  datatype CompileError = NestingTooDeep | KeyNotString

  const MAKE_ARRAY := 2

  function Expr(c: Base64, val: Host, depth: int): Result<Term, CompileError>
    decreases val
  {
    if depth <= 0 then
      Err(NestingTooDeep)
    else
      match val
      case None_ => Ok(Datum(Null))
      case Flag(b) => Ok(Datum(Bool(b)))
      case Number(n) => Ok(Datum(Int(n)))
      case Word(s) => Ok(Datum(Str(s)))
      case Binary(bytes) => Ok(BinaryTerm(c.encode(bytes)))
      case List(items) =>
        (match ExprItems(c, items, depth - 1)
         case Ok(args) => Ok(MakeArray(args))
         case Err(e) => Err(e))
      case Dict(pairs) =>
        (match ExprValues(c, pairs, depth - 1)
         case Ok(values) => if StringKeys(pairs) then Ok(MakeObj(Fields(pairs, values))) else Err(KeyNotString)
         case Err(e) => Err(e))
  }

  function ExprItems(c: Base64, items: seq<Host>, depth: int): (r: Result<seq<Term>, CompileError>)
    ensures r.Ok? ==> |r.value| == |items|
    decreases items
  {
    if items == [] then
      Ok([])
    else
      match Expr(c, items[0], depth)
      case Err(e) => Err(e)
      case Ok(first) =>
        match ExprItems(c, items[1..], depth)
        case Err(e) => Err(e)
        case Ok(rest) => Ok([first] + rest)
  }

  function ExprValues(c: Base64, pairs: seq<Pair>, depth: int): (r: Result<seq<Term>, CompileError>)
    ensures r.Ok? ==> |r.value| == |pairs|
    decreases pairs
  {
    if pairs == [] then
      Ok([])
    else
      assert pairs[0].value < pairs[0];
      match Expr(c, pairs[0].value, depth)
      case Err(e) => Err(e)
      case Ok(first) =>
        match ExprValues(c, pairs[1..], depth)
        case Err(e) => Err(e)
        case Ok(rest) => Ok([first] + rest)
  }

  predicate StringKeys(pairs: seq<Pair>) {
    pairs == [] || (pairs[0].key.Text? && StringKeys(pairs[1..]))
  }

  function Fields(pairs: seq<Pair>, values: seq<Term>): seq<Field>
    requires |pairs| == |values| && StringKeys(pairs)
  {
    if pairs == [] then [] else [Field(pairs[0].key.s, values[0])] + Fields(pairs[1..], values[1..])
  }

  /** What is sent: an array is a term with its type number, an object is sent as it is. */
  function Build(t: Term): Json {
    match t
    case Datum(json) => json
    case BinaryTerm(data) => Object([Member("$reql_type$", Str("BINARY")), Member("data", Str(data))])
    case MakeArray(args) => Array([Int(MAKE_ARRAY), Array(BuildAll(args))])
    case MakeObj(optargs) => Object(BuildFields(optargs))
  }

  function BuildAll(ts: seq<Term>): seq<Json> {
    if ts == [] then [] else [Build(ts[0])] + BuildAll(ts[1..])
  }

  function BuildFields(fs: seq<Field>): seq<Member> {
    if fs == [] then [] else [Member(fs[0].key, Build(fs[0].value))] + BuildFields(fs[1..])
  }

  // ----- the server -----

  /** The server's value of such a term; 2 is `MAKE_ARRAY` in ql2.proto, and other terms are not sent here. */
  function Evaluate(j: Json): Option<Json> {
    match j
    case Array(items) =>
      if |items| == 2 && items[0] == Int(2) && items[1].Array? then
        match EvaluateAll(items[1].items)
        case None => None
        case Some(values) => Some(Array(values))
      else
        None
    case Object(members) =>
      (match EvaluateMembers(members)
       case None => None
       case Some(values) => Some(Object(values)))
    case _ => Some(j)
  }

  function EvaluateAll(js: seq<Json>): Option<seq<Json>> {
    if js == [] then
      Some([])
    else
      match (Evaluate(js[0]), EvaluateAll(js[1..]))
      case (Some(first), Some(rest)) => Some([first] + rest)
      case _ => None
  }

  function EvaluateMembers(ms: seq<Member>): Option<seq<Member>> {
    if ms == [] then
      Some([])
    else
      match (Evaluate(ms[0].value), EvaluateMembers(ms[1..]))
      case (Some(first), Some(rest)) => Some([Member(ms[0].key, first)] + rest)
      case _ => None
  }

  // ----- the decoder -----

  const REQL_TYPE := "$reql_type$"

  /** `obj.get(key)`; a later member with the same key replaces an earlier one. */
  function Get(pairs: seq<Pair>, key: string): Option<Host> {
    if pairs == [] then
      None
    else
      var n := |pairs| - 1;
      if pairs[n].key == Text(key) then Some(pairs[n].value) else Get(pairs[..n], key)
  }

  /**
   * The hook that is called for every object, its values already decoded, with the default formats.
   * `None` is an exception or a value that is not data of this kind: a time, or grouped data.
   */
  function ConvertPseudotype(c: Base64, pairs: seq<Pair>): Option<Host> {
    match Get(pairs, REQL_TYPE)
    case None => Some(Dict(pairs))
    case Some(None_) => Some(Dict(pairs))
    case Some(Word("GEOMETRY")) => Some(Dict(pairs))
    case Some(Word("BINARY")) =>
      (match Get(pairs, "data")
       case Some(Word(data)) => if c.decode(data).Some? then Some(Binary(c.decode(data).value)) else None
       case _ => None)
    case Some(_) => None
  }

  function Decode(c: Base64, j: Json): Option<Host> {
    match j
    case Null => Some(None_)
    case Bool(b) => Some(Flag(b))
    case Int(n) => Some(Number(n))
    case Str(s) => Some(Word(s))
    case Array(items) =>
      (match DecodeAll(c, items)
       case None => None
       case Some(values) => Some(List(values)))
    case Object(members) =>
      (match DecodeMembers(c, members)
       case None => None
       case Some(pairs) => ConvertPseudotype(c, pairs))
  }

  function DecodeAll(c: Base64, js: seq<Json>): Option<seq<Host>> {
    if js == [] then
      Some([])
    else
      match (Decode(c, js[0]), DecodeAll(c, js[1..]))
      case (Some(first), Some(rest)) => Some([first] + rest)
      case _ => None
  }

  function DecodeMembers(c: Base64, ms: seq<Member>): Option<seq<Pair>> {
    if ms == [] then
      Some([])
    else
      match (Decode(c, ms[0].value), DecodeMembers(c, ms[1..]))
      case (Some(first), Some(rest)) => Some([Pair(Text(ms[0].key), first)] + rest)
      case _ => None
  }

  // ----- which data can be sent, and which comes back -----

  function Depth(val: Host): (d: nat)
    ensures d >= 1
  {
    match val
    case List(items) => 1 + ItemsDepth(items)
    case Dict(pairs) => 1 + PairsDepth(pairs)
    case _ => 1
  }

  function ItemsDepth(items: seq<Host>): nat {
    if items == [] then 0
    else var first, rest := Depth(items[0]), ItemsDepth(items[1..]); if first >= rest then first else rest
  }

  function PairsDepth(pairs: seq<Pair>): nat {
    if pairs == [] then
      0
    else
      assert pairs[0].value < pairs[0];
      var first, rest := Depth(pairs[0].value), PairsDepth(pairs[1..]);
      if first >= rest then first else rest
  }

  predicate AllStringKeys(val: Host) {
    match val
    case List(items) => ItemsStringKeys(items)
    case Dict(pairs) => StringKeys(pairs) && PairsStringKeys(pairs)
    case _ => true
  }

  predicate ItemsStringKeys(items: seq<Host>) {
    items == [] || (AllStringKeys(items[0]) && ItemsStringKeys(items[1..]))
  }

  predicate PairsStringKeys(pairs: seq<Pair>) {
    pairs == [] || (assert pairs[0].value < pairs[0]; AllStringKeys(pairs[0].value) && PairsStringKeys(pairs[1..]))
  }

  /** The dictionary is not marked as a pseudo-type that the decoder converts. */
  predicate Plain(pairs: seq<Pair>) {
    var t := Get(pairs, REQL_TYPE);
    t == None || t == Some(None_) || t == Some(Word("GEOMETRY"))
  }

  predicate Unmarked(val: Host) {
    match val
    case List(items) => ItemsUnmarked(items)
    case Dict(pairs) => Plain(pairs) && PairsUnmarked(pairs)
    case _ => true
  }

  predicate ItemsUnmarked(items: seq<Host>) {
    items == [] || (Unmarked(items[0]) && ItemsUnmarked(items[1..]))
  }

  predicate PairsUnmarked(pairs: seq<Pair>) {
    pairs == [] || (assert pairs[0].value < pairs[0]; Unmarked(pairs[0].value) && PairsUnmarked(pairs[1..]))
  }

  // ----- theorems -----

  /** `expr` takes a value exactly if it is not nested too deep and its keys are strings. */
  lemma {:induction false} ExprSucceeds(c: Base64, val: Host, depth: int)
    ensures Expr(c, val, depth).Ok? <==> Depth(val) <= depth && AllStringKeys(val)
    ensures AllStringKeys(val) && Expr(c, val, depth).Err? ==> Expr(c, val, depth).error == NestingTooDeep
    ensures Depth(val) <= depth && Expr(c, val, depth).Err? ==> Expr(c, val, depth).error == KeyNotString
    decreases val
  {
    match val
    case List(items) => ItemsSucceed(c, items, depth - 1);
    case Dict(pairs) => ValuesSucceed(c, pairs, depth - 1);
    case _ =>
  }

  lemma {:induction false} ItemsSucceed(c: Base64, items: seq<Host>, depth: int)
    ensures ExprItems(c, items, depth).Ok? <==> (ItemsDepth(items) <= depth && ItemsStringKeys(items)) || items == []
    ensures ItemsStringKeys(items) && ExprItems(c, items, depth).Err?
            ==> ExprItems(c, items, depth).error == NestingTooDeep
    ensures ItemsDepth(items) <= depth && ExprItems(c, items, depth).Err?
            ==> ExprItems(c, items, depth).error == KeyNotString
    decreases items
  {
    if items != [] {
      ExprSucceeds(c, items[0], depth);
      ItemsSucceed(c, items[1..], depth);
    }
  }

  lemma {:induction false} ValuesSucceed(c: Base64, pairs: seq<Pair>, depth: int)
    ensures ExprValues(c, pairs, depth).Ok? <==> (PairsDepth(pairs) <= depth && PairsStringKeys(pairs)) || pairs == []
    ensures PairsStringKeys(pairs) && ExprValues(c, pairs, depth).Err?
            ==> ExprValues(c, pairs, depth).error == NestingTooDeep
    ensures PairsDepth(pairs) <= depth && ExprValues(c, pairs, depth).Err?
            ==> ExprValues(c, pairs, depth).error == KeyNotString
    decreases pairs
  {
    if pairs != [] {
      assert pairs[0].value < pairs[0];
      ExprSucceeds(c, pairs[0].value, depth);
      ValuesSucceed(c, pairs[1..], depth);
    }
  }

  /** The term of a value evaluates to the JSON the server would answer with. */
  function Wire(c: Base64, val: Host): Json
    requires AllStringKeys(val)
  {
    match val
    case None_ => Null
    case Flag(b) => Bool(b)
    case Number(n) => Int(n)
    case Word(s) => Str(s)
    case Binary(bytes) => Object([Member(REQL_TYPE, Str("BINARY")), Member("data", Str(c.encode(bytes)))])
    case List(items) => Array(WireItems(c, items))
    case Dict(pairs) => Object(WireMembers(c, pairs))
  }

  function WireItems(c: Base64, items: seq<Host>): seq<Json>
    requires ItemsStringKeys(items)
  {
    if items == [] then [] else [Wire(c, items[0])] + WireItems(c, items[1..])
  }

  function WireMembers(c: Base64, pairs: seq<Pair>): seq<Member>
    requires StringKeys(pairs) && PairsStringKeys(pairs)
  {
    if pairs == [] then
      []
    else
      assert pairs[0].value < pairs[0];
      [Member(pairs[0].key.s, Wire(c, pairs[0].value))] + WireMembers(c, pairs[1..])
  }

  /** Building and evaluating are inverse: an array is wrapped and unwrapped, everything else is itself. */
  lemma {:induction false} EvaluatesToWire(c: Base64, val: Host, depth: int)
    requires Expr(c, val, depth).Ok?
    ensures AllStringKeys(val) && Evaluate(Build(Expr(c, val, depth).value)) == Some(Wire(c, val))
    decreases val
  {
    match val
    case List(items) => ItemsEvaluate(c, items, depth - 1);
    case Dict(pairs) => ValuesEvaluate(c, pairs, depth - 1);
    case Binary(bytes) => EvaluateBinary(c.encode(bytes));
    case _ =>
  }

  lemma EvaluateBinary(data: string)
    ensures var ms := [Member(REQL_TYPE, Str("BINARY")), Member("data", Str(data))];
            Evaluate(Object(ms)) == Some(Object(ms))
  {
    var first, second := Member(REQL_TYPE, Str("BINARY")), Member("data", Str(data));
    var ms := [first, second];
    assert ms[1..] == [second] && [second][1..] == [] && EvaluateMembers([]) == Some([]);
    assert [second] + [] == [second] && [first] + [second] == ms;
    assert Evaluate(second.value) == Some(second.value) && Evaluate(first.value) == Some(first.value);
    assert EvaluateMembers([second]) == Some([second]);
    assert EvaluateMembers(ms) == Some([first] + [second]);
  }

  lemma {:induction false} ItemsEvaluate(c: Base64, items: seq<Host>, depth: int)
    requires ExprItems(c, items, depth).Ok?
    ensures ItemsStringKeys(items)
            && EvaluateAll(BuildAll(ExprItems(c, items, depth).value)) == Some(WireItems(c, items))
    decreases items
  {
    if items != [] {
      EvaluatesToWire(c, items[0], depth);
      ItemsEvaluate(c, items[1..], depth);
      var first, rest := Expr(c, items[0], depth).value, ExprItems(c, items[1..], depth).value;
      assert BuildAll([first] + rest) == [Build(first)] + BuildAll(rest);
      assert ([Build(first)] + BuildAll(rest))[1..] == BuildAll(rest);
    }
  }

  lemma {:induction false} ValuesEvaluate(c: Base64, pairs: seq<Pair>, depth: int)
    requires ExprValues(c, pairs, depth).Ok? && StringKeys(pairs)
    ensures PairsStringKeys(pairs)
    ensures EvaluateMembers(BuildFields(Fields(pairs, ExprValues(c, pairs, depth).value)))
            == Some(WireMembers(c, pairs))
    decreases pairs
  {
    if pairs != [] {
      assert pairs[0].value < pairs[0];
      EvaluatesToWire(c, pairs[0].value, depth);
      ValuesEvaluate(c, pairs[1..], depth);
      var first, rest := Expr(c, pairs[0].value, depth).value, ExprValues(c, pairs[1..], depth).value;
      var field, fields := Field(pairs[0].key.s, first), Fields(pairs[1..], rest);
      assert ([first] + rest)[1..] == rest;
      assert BuildFields([field] + fields) == [Member(field.key, Build(first))] + BuildFields(fields);
      assert ([Member(field.key, Build(first))] + BuildFields(fields))[1..] == BuildFields(fields);
    }
  }

  /** Neither is `None` or a string unless both are the same. */
  predicate Same(a: Host, b: Host) {
    a.None_? || a.Word? || b.None_? || b.Word? ==> a == b
  }

  predicate Related(a: seq<Pair>, b: seq<Pair>) {
    |a| == |b| && forall i :: 0 <= i < |a| ==> a[i].key == b[i].key && Same(a[i].value, b[i].value)
  }

  lemma {:induction false} GetRelated(a: seq<Pair>, b: seq<Pair>, key: string)
    requires Related(a, b)
    ensures match (Get(a, key), Get(b, key))
            case (None, None) => true
            case (Some(x), Some(y)) => Same(x, y)
            case _ => false
  {
    if a != [] {
      GetRelated(a[..|a| - 1], b[..|b| - 1], key);
    }
  }

  /** Decoding the answer gives back exactly the values without a marked dictionary in them. */
  lemma {:induction false} DecodesExactly(c: Base64, val: Host)
    requires Lawful(c) && AllStringKeys(val)
    ensures Decode(c, Wire(c, val)) == Some(val) <==> Unmarked(val)
    ensures Decode(c, Wire(c, val)).Some? ==> Same(val, Decode(c, Wire(c, val)).value)
    decreases val
  {
    match val
    case List(items) => ItemsDecode(c, items);
    case Dict(pairs) =>
      MembersDecode(c, pairs);
      var decoded := DecodeMembers(c, WireMembers(c, pairs));
      if decoded.Some? {
        GetRelated(pairs, decoded.value, REQL_TYPE);
      }
    case Binary(bytes) => DecodeBinary(c, bytes);
    case _ =>
  }

  lemma DecodeBinary(c: Base64, bytes: Bytes)
    requires Lawful(c)
    ensures Decode(c, Wire(c, Binary(bytes))) == Some(Binary(bytes))
  {
    var ms := [Member(REQL_TYPE, Str("BINARY")), Member("data", Str(c.encode(bytes)))];
    var pairs := [Pair(Text(REQL_TYPE), Word("BINARY")), Pair(Text("data"), Word(c.encode(bytes)))];
    assert ms[1..] == [ms[1]] && [ms[1]][1..] == [] && DecodeMembers(c, []) == Some([]);
    assert [pairs[1]] + [] == [pairs[1]] && [pairs[0]] + [pairs[1]] == pairs;
    assert DecodeMembers(c, [ms[1]]) == Some([pairs[1]]);
    assert DecodeMembers(c, ms) == Some(pairs);
    assert pairs[..1] == [pairs[0]];
    assert Get(pairs[..1], REQL_TYPE) == Some(Word("BINARY"));
    assert REQL_TYPE != "data";
    assert Get(pairs, REQL_TYPE) == Some(Word("BINARY")) && Get(pairs, "data") == Some(Word(c.encode(bytes)));
  }

  lemma {:induction false} ItemsDecode(c: Base64, items: seq<Host>)
    requires Lawful(c) && ItemsStringKeys(items)
    ensures DecodeAll(c, WireItems(c, items)) == Some(items) <==> ItemsUnmarked(items)
    decreases items
  {
    if items != [] {
      DecodesExactly(c, items[0]);
      ItemsDecode(c, items[1..]);
      assert WireItems(c, items)[1..] == WireItems(c, items[1..]);
      assert items == [items[0]] + items[1..];
      var first, rest := Decode(c, Wire(c, items[0])), DecodeAll(c, WireItems(c, items[1..]));
      if first.Some? && rest.Some? {
        assert ([first.value] + rest.value)[1..] == rest.value;
      }
    }
  }

  lemma {:induction false} MembersDecode(c: Base64, pairs: seq<Pair>)
    requires Lawful(c) && StringKeys(pairs) && PairsStringKeys(pairs)
    ensures var d := DecodeMembers(c, WireMembers(c, pairs));
            (d == Some(pairs) <==> PairsUnmarked(pairs)) && (d.Some? ==> Related(pairs, d.value))
    decreases pairs
  {
    if pairs != [] {
      assert pairs[0].value < pairs[0];
      DecodesExactly(c, pairs[0].value);
      MembersDecode(c, pairs[1..]);
      assert WireMembers(c, pairs)[1..] == WireMembers(c, pairs[1..]);
      assert pairs == [pairs[0]] + pairs[1..];
      var first, rest := Decode(c, Wire(c, pairs[0].value)), DecodeMembers(c, WireMembers(c, pairs[1..]));
      if first.Some? && rest.Some? {
        assert ([Pair(Text(pairs[0].key.s), first.value)] + rest.value)[1..] == rest.value;
      }
    }
  }

  /**
   * What the driver sends, the server evaluates and the decoder makes of the answer: the value itself,
   * exactly if no dictionary in it is marked as a pseudo-type that is converted.
   */
  lemma ValueRoundTrip(c: Base64, val: Host, depth: int)
    requires Lawful(c) && Expr(c, val, depth).Ok?
    ensures var answer := Evaluate(Build(Expr(c, val, depth).value));
            answer.Some? && (Decode(c, answer.value) == Some(val) <==> Unmarked(val))
  {
    EvaluatesToWire(c, val, depth);
    DecodesExactly(c, val);
  }

  /** A dictionary with one word in it */
  lemma OneWord(c: Base64, key: string, word: string)
    ensures var pairs := [Pair(Text(key), Word(word))];
            && Depth(Dict(pairs)) == 2 && AllStringKeys(Dict(pairs))
            && Wire(c, Dict(pairs)) == Object([Member(key, Str(word))])
            && DecodeMembers(c, [Member(key, Str(word))]) == Some(pairs)
            && Get(pairs, key) == Some(Word(word))
  {
    var pair, member := Pair(Text(key), Word(word)), Member(key, Str(word));
    assert [pair][1..] == [] && [member][1..] == [];
    assert PairsDepth([]) == 0 && PairsDepth([pair]) == 1;
    assert StringKeys([]) && PairsStringKeys([]) && WireMembers(c, []) == [];
    assert StringKeys([pair]) && PairsStringKeys([pair]);
    assert WireMembers(c, [pair]) == [member] + [];
    assert DecodeMembers(c, []) == Some([]) && [pair] + [] == [pair];
    assert DecodeMembers(c, [member]) == Some([pair] + []);
  }

  /** A dictionary marked with a type that the decoder does not know can be sent, and is refused on its return. */
  lemma MarkedDictionaryIsRefused(c: Base64)
    ensures var sent := Expr(c, Dict([Pair(Text(REQL_TYPE), Word("POINT"))]), 20);
            && sent.Ok?
            && Evaluate(Build(sent.value)).Some?
            && Decode(c, Evaluate(Build(sent.value)).value) == None
  {
    var val := Dict([Pair(Text(REQL_TYPE), Word("POINT"))]);
    OneWord(c, REQL_TYPE, "POINT");
    ExprSucceeds(c, val, 20);
    EvaluatesToWire(c, val, 20);
  }
}
