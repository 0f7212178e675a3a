/**
 * The JSON text the exporter prints with `json.dumps` and the importer reads with `raw_decode`:
 * nested objects and arrays, strings with their escapes, integers, `true`, `false` and `null`
 * (RFC 8259, in the form Python's `json` gives it). A parser returns the value and the text after it.
 */
module JsonText {
  import opened Wrappers

  datatype Member = Member(key: string, value: Json)

  datatype Json =
    | Null
    | Bool(b: bool)
    | Int(n: int)
    | Str(s: string)
    | Array(items: seq<Json>)
    | Object(members: seq<Member>)

  type Parse<T> = Option<(T, string)>

  // ----- characters -----

  predicate IsSpace(c: char) {
    c == ' ' || c == '\t' || c == '\n' || c == '\r'
  }

  function SkipSpace(s: string): (r: string)
    ensures |r| <= |s|
  {
    if s != "" && IsSpace(s[0]) then SkipSpace(s[1..]) else s
  }

  predicate IsDigit(c: char) {
    '0' <= c <= '9'
  }

  function DigitChar(d: nat): (c: char)
    requires d < 10
    ensures IsDigit(c) && DigitValue(c) == d
  {
    '0' + d as char
  }

  function DigitValue(c: char): (d: nat)
    requires IsDigit(c)
    ensures d < 10
  {
    (c - '0') as nat
  }

  function HexChar(d: nat): (c: char)
    requires d < 16
    ensures HexValue(c) == Some(d)
  {
    if d < 10 then '0' + d as char else 'a' + (d - 10) as char
  }

  function HexValue(c: char): (r: Option<nat>)
    ensures r.Some? ==> r.value < 16
  {
    if '0' <= c <= '9' then Some((c - '0') as nat)
    else if 'a' <= c <= 'f' then Some((c - 'a') as nat + 10)
    else if 'A' <= c <= 'F' then Some((c - 'A') as nat + 10)
    else None
  }

  // ----- printing, in front of the text `k` that follows -----

  function Put(c: char, k: string): (s: string)
    ensures |s| == |k| + 1 && s[0] == c && s[1..] == k
  {
    [c] + k
  }

  function PutHex4(n: nat, k: string): (s: string)
    requires n < 0x10000
  {
    Put(HexChar(n / 4096), Put(HexChar(n / 256 % 16), Put(HexChar(n / 16 % 16), Put(HexChar(n % 16), k))))
  }

  /** The letter that escapes `c`, for the characters that have one */
  function EscapeLetter(c: char): Option<char> {
    if c == '\"' then Some('\"')
    else if c == '\\' then Some('\\')
    else if c == '\n' then Some('n')
    else if c == '\r' then Some('r')
    else if c == '\t' then Some('t')
    else if c as nat == 12 then Some('f')
    else if c as nat == 8 then Some('b')
    else None
  }

  /** One character as `json.dumps` writes it: printable ASCII as itself, the rest escaped, in pairs beyond 16 bits. */
  function PutChar(c: char, k: string): (s: string) {
    match EscapeLetter(c)
    case Some(letter) => Put('\\', Put(letter, k))
    case None =>
      if ' ' <= c <= '~' then Put(c, k)
      else if (c as nat) < 0x10000 then Put('\\', Put('u', PutHex4(c as nat, k)))
      else PutPair(c as nat - 0x10000, k)
  }

  function PutPair(n: nat, k: string): (s: string)
    requires n < 0x100000
  {
    Put('\\', Put('u', PutHex4(0xd800 + n / 0x400, Put('\\', Put('u', PutHex4(0xdc00 + n % 0x400, k))))))
  }

  /** The characters of a string and its closing quote */
  function PutString(t: string, k: string): string {
    if t == "" then Put('\"', k) else PutChar(t[0], PutString(t[1..], k))
  }

  function PutNat(n: nat, k: string): string {
    if n < 10 then Put(DigitChar(n), k) else PutNat(n / 10, Put(DigitChar(n % 10), k))
  }

  function PutInt(n: int, k: string): string {
    if n < 0 then Put('-', PutNat(-n, k)) else PutNat(n, k)
  }

  function PutLiteral(v: Json, k: string): string
    requires v.Null? || v.Bool?
  {
    match v
    case Null => Put('n', Put('u', Put('l', Put('l', k))))
    case Bool(b) =>
      if b then Put('t', Put('r', Put('u', Put('e', k))))
      else Put('f', Put('a', Put('l', Put('s', Put('e', k)))))
  }

  function PutValue(v: Json, k: string): string
    decreases v, 0
  {
    match v
    case Null => PutLiteral(v, k)
    case Bool(_) => PutLiteral(v, k)
    case Int(n) => PutInt(n, k)
    case Str(t) => Put('\"', PutString(t, k))
    case Array(items) => Put('[', if items == [] then Put(']', k) else PutItems(items, k))
    case Object(members) => Put('{', if members == [] then Put('}', k) else PutMembers(members, k))
  }

  /** The items of an array and its closing bracket */
  function PutItems(items: seq<Json>, k: string): string
    requires items != []
    decreases items, 0
  {
    PutValue(items[0], if |items| == 1 then Put(']', k) else Put(',', Put(' ', PutItems(items[1..], k))))
  }

  function PutMember(m: Member, k: string): string
    decreases m, 1
  {
    Put('\"', PutString(m.key, Put(':', Put(' ', PutValue(m.value, k)))))
  }

  /** The members of an object and its closing brace */
  function PutMembers(members: seq<Member>, k: string): string
    requires members != []
    decreases members, 0
  {
    PutMember(members[0], if |members| == 1 then Put('}', k) else Put(',', Put(' ', PutMembers(members[1..], k))))
  }

  /** `json.dumps` */
  function Dumps(v: Json): string {
    PutValue(v, "")
  }

  // ----- parsing -----

  function ParseHex4(s: string): (r: Parse<nat>)
    ensures r.Some? ==> |s| == |r.value.1| + 4 && r.value.0 < 0x10000
  {
    if |s| < 4 then None
    else
      match (HexValue(s[0]), HexValue(s[1]), HexValue(s[2]), HexValue(s[3]))
      case (Some(a), Some(b), Some(c), Some(d)) => Some((a * 4096 + b * 256 + c * 16 + d, s[4..]))
      case _ => None
  }

  /** The escapes of one character; a surrogate is only accepted as half of a pair. */
  function ParseEscape(s: string): (r: Parse<char>)
    ensures r.Some? ==> |r.value.1| < |s|
  {
    if s == "" then None
    else
      match s[0]
      case '\"' => Some(('\"', s[1..]))
      case '\\' => Some(('\\', s[1..]))
      case '/' => Some(('/', s[1..]))
      case 'b' => Some((8 as char, s[1..]))
      case 'f' => Some((12 as char, s[1..]))
      case 'n' => Some(('\n', s[1..]))
      case 'r' => Some(('\r', s[1..]))
      case 't' => Some(('\t', s[1..]))
      case 'u' => ParseUnicode(s[1..])
      case _ => None
  }

  function ParseUnicode(s: string): (r: Parse<char>)
    ensures r.Some? ==> |r.value.1| < |s|
  {
    match ParseHex4(s)
    case None => None
    case Some((n, s1)) =>
      if n < 0xd800 || 0xe000 <= n then Some((n as char, s1))
      else if n < 0xdc00 && |s1| >= 2 && s1[0] == '\\' && s1[1] == 'u' then
        match ParseHex4(s1[2..])
        case None => None
        case Some((m, s2)) =>
          if 0xdc00 <= m < 0xe000 then Some(((0x10000 + (n - 0xd800) * 0x400 + (m - 0xdc00)) as char, s2)) else None
      else None
  }

  /** The rest of a string after its opening quote. */
  function ParseString(s: string): (r: Parse<string>)
    ensures r.Some? ==> |r.value.1| < |s|
    decreases |s|
  {
    if s == "" then None
    else if s[0] == '\"' then Some(("", s[1..]))
    else if s[0] == '\\' then
      match ParseEscape(s[1..])
      case None => None
      case Some((c, s1)) => ConsChar(c, ParseString(s1))
    else if s[0] < ' ' then None
    else ConsChar(s[0], ParseString(s[1..]))
  }

  function ConsChar(c: char, r: Parse<string>): Parse<string> {
    match r
    case None => None
    case Some((s, rest)) => Some(([c] + s, rest))
  }

  /** The number whose digits so far amount to `acc` */
  function ParseDigits(acc: nat, s: string): (r: (nat, string))
    ensures |r.1| <= |s|
    decreases |s|
  {
    if s != "" && IsDigit(s[0]) then ParseDigits(10 * acc + DigitValue(s[0]), s[1..]) else (acc, s)
  }

  /** What may not follow an integer: a fraction or an exponent would make the literal a float. */
  predicate GoesOn(s: string) {
    s != "" && (s[0] == '.' || s[0] == 'e' || s[0] == 'E')
  }

  /** A leading zero stands alone. */
  function ParseNat(s: string): (r: Parse<nat>)
    ensures r.Some? ==> |r.value.1| < |s|
  {
    if s == "" || !IsDigit(s[0]) then None
    else
      var (n, rest) := if s[0] == '0' then (0, s[1..]) else ParseDigits(DigitValue(s[0]), s[1..]);
      if GoesOn(rest) then None else Some((n, rest))
  }

  function ParseInt(s: string): (r: Parse<Json>)
    ensures r.Some? ==> |r.value.1| < |s|
  {
    if s != "" && s[0] == '-' then
      match ParseNat(s[1..])
      case None => None
      case Some((n, rest)) => Some((Int(-(n as int)), rest))
    else
      match ParseNat(s)
      case None => None
      case Some((n, rest)) => Some((Int(n), rest))
  }

  function ParseLiteral(s: string): (r: Parse<Json>)
    ensures r.Some? ==> |r.value.1| < |s|
  {
    if "null" <= s then Some((Null, s[4..]))
    else if "true" <= s then Some((Bool(true), s[4..]))
    else if "false" <= s then Some((Bool(false), s[5..]))
    else None
  }

  function ParseQuoted(s: string): (r: Parse<Json>)
    ensures r.Some? ==> |r.value.1| < |s|
  {
    match ParseString(s)
    case None => None
    case Some((t, rest)) => Some((Str(t), rest))
  }

  /** `raw_decode`, at the front of `s` */
  function ParseValue(s: string): (r: Parse<Json>)
    ensures r.Some? ==> |r.value.1| < |s|
    decreases |s|, 0
  {
    if s == "" then None
    else if s[0] == '\"' then ParseQuoted(s[1..])
    else if s[0] == '{' then ParseObject(SkipSpace(s[1..]))
    else if s[0] == '[' then ParseArray(SkipSpace(s[1..]))
    else if s[0] == '-' || IsDigit(s[0]) then ParseInt(s)
    else ParseLiteral(s)
  }

  /** The rest of an array after its opening bracket and the space behind it */
  function ParseArray(s: string): (r: Parse<Json>)
    ensures r.Some? ==> |r.value.1| < |s|
    decreases |s|, 2
  {
    if s != "" && s[0] == ']' then Some((Array([]), s[1..]))
    else
      match ParseItems(s)
      case None => None
      case Some((vs, rest)) => Some((Array(vs), rest))
  }

  function ParseObject(s: string): (r: Parse<Json>)
    ensures r.Some? ==> |r.value.1| < |s|
    decreases |s|, 3
  {
    if s != "" && s[0] == '}' then Some((Object([]), s[1..]))
    else
      match ParseMembers(s)
      case None => None
      case Some((ms, rest)) => Some((Object(ms), rest))
  }

  function ParseItems(s: string): (r: Parse<seq<Json>>)
    ensures r.Some? ==> |r.value.1| < |s|
    decreases |s|, 1
  {
    match ParseValue(s)
    case None => None
    case Some((v, s1)) =>
      var s2 := SkipSpace(s1);
      if s2 == "" then None
      else if s2[0] == ']' then Some(([v], s2[1..]))
      else if s2[0] != ',' then None
      else
        match ParseItems(SkipSpace(s2[1..]))
        case None => None
        case Some((vs, rest)) => Some(([v] + vs, rest))
  }

  function ParseMember(s: string): (r: Parse<Member>)
    ensures r.Some? ==> |r.value.1| < |s|
    decreases |s|, 1
  {
    if s == "" || s[0] != '\"' then None
    else
      match ParseString(s[1..])
      case None => None
      case Some((k, s1)) =>
        var s2 := SkipSpace(s1);
        if s2 == "" || s2[0] != ':' then None
        else
          match ParseValue(SkipSpace(s2[1..]))
          case None => None
          case Some((v, rest)) => Some((Member(k, v), rest))
  }

  function ParseMembers(s: string): (r: Parse<seq<Member>>)
    ensures r.Some? ==> |r.value.1| < |s|
    decreases |s|, 2
  {
    match ParseMember(s)
    case None => None
    case Some((m, s1)) =>
      var s2 := SkipSpace(s1);
      if s2 == "" then None
      else if s2[0] == '}' then Some(([m], s2[1..]))
      else if s2[0] != ',' then None
      else
        match ParseMembers(SkipSpace(s2[1..]))
        case None => None
        case Some((ms, rest)) => Some(([m] + ms, rest))
  }
}
