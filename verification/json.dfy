/** JSON text (RFC 8259) as the collaboration channel uses it: the value
    model, the serializer behind `JSON.stringify` and the parser behind
    `JSON.parse`, with the round trip between them proved. Numbers are kept
    as their lexeme, since nothing in the channel computes with them. */
module Json {
  import opened Common

  datatype Json =
    | JNull
    | JBool(b: bool)
    | JNumber(lexeme: string)
    | JString(s: string)
    | JArray(items: seq<Json>)
    | JObject(members: seq<Member>)

  /** One `"key": value` pair of an object, in document order. */
  datatype Member = Member(key: string, value: Json)

  /* ---------------------------------------------------------------------
     Lexical classes
     --------------------------------------------------------------------- */

  /** Insignificant whitespace, section 2 of RFC 8259. */
  predicate IsWs(c: char) {
    c == ' ' || c == '\t' || c == '\n' || c == '\r'
  }

  predicate IsDigit(c: char) {
    '0' <= c <= '9'
  }

  /** Characters that can occur in a number token. */
  predicate IsNumberChar(c: char) {
    IsDigit(c) || c == '-' || c == '+' || c == '.' || c == 'e' || c == 'E'
  }

  /** First index at or after `i` that does not hold a digit. */
  function DigitsEnd(s: string, i: nat): (j: nat)
    requires i <= |s|
    ensures i <= j <= |s|
    ensures forall k | i <= k < j :: IsDigit(s[k])
    ensures j == |s| || !IsDigit(s[j])
    decreases |s| - i
  {
    if i < |s| && IsDigit(s[i]) then DigitsEnd(s, i + 1) else i
  }

  /** The number grammar of section 6 of RFC 8259:
      `[ minus ] int [ frac ] [ exp ]`. */
  predicate ValidNumber(s: string) {
    var i := if 0 < |s| && s[0] == '-' then 1 else 0;
    && i < |s|
    && IsDigit(s[i])
    && ValidFraction(s, if s[i] == '0' then i + 1 else DigitsEnd(s, i))
  }

  predicate ValidFraction(s: string, i: nat)
    requires i <= |s|
  {
    if i < |s| && s[i] == '.' then
      var j := DigitsEnd(s, i + 1);
      j > i + 1 && ValidExponent(s, j)
    else
      ValidExponent(s, i)
  }

  predicate ValidExponent(s: string, i: nat)
    requires i <= |s|
  {
    if i < |s| && (s[i] == 'e' || s[i] == 'E') then
      var k := if i + 1 < |s| && (s[i + 1] == '+' || s[i + 1] == '-') then i + 2 else i + 1;
      k < |s| && IsDigit(s[k]) && DigitsEnd(s, k) == |s|
    else
      i == |s|
  }

  /** A value the serializer can write and the parser reads back: every
      number lexeme is a number token of RFC 8259. */
  predicate WellFormed(j: Json)
    decreases j
  {
    match j
    case JNumber(lex) =>
      ValidNumber(lex) && forall i | 0 <= i < |lex| :: IsNumberChar(lex[i])
    case JArray(items) =>
      forall i | 0 <= i < |items| :: WellFormed(items[i])
    case JObject(ms) =>
      forall i | 0 <= i < |ms| :: WellFormed(ms[i].value)
    case _ => true
  }

  /* ---------------------------------------------------------------------
     Object property access
     --------------------------------------------------------------------- */

  /** Property lookup on a parsed object. `JSON.parse` keeps the LAST of
      duplicate keys, so the last matching member wins. */
  function Get(ms: seq<Member>, key: string): (r: Option<Json>)
    ensures r.None? <==> forall i | 0 <= i < |ms| :: ms[i].key != key
    ensures r.Some? ==>
      exists i | 0 <= i < |ms| ::
        && ms[i].key == key && ms[i].value == r.value
        && forall k | i < k < |ms| :: ms[k].key != key
  {
    if |ms| == 0 then None
    else
      var later := Get(ms[1..], key);
      if later.Some? then
        assert forall k | 0 <= k < |ms[1..]| :: ms[1..][k] == ms[k + 1];
        later
      else if ms[0].key == key then Some(ms[0].value)
      else None
  }

  /** Writes one property into an object literal under construction, as
      `{ ...target, [m.key]: m.value }` does: an existing key keeps its
      position and takes the new value, a new key goes last. */
  function Assign(target: seq<Member>, m: Member): (r: seq<Member>)
    ensures |r| == |target| || |r| == |target| + 1
  {
    if |target| == 0 then [m]
    else if target[0].key == m.key then [m] + target[1..]
    else [target[0]] + Assign(target[1..], m)
  }

  /** Object spread `{ ...target, ...data }`: the members of `data`
      assigned one after another. */
  function Spread(target: seq<Member>, data: seq<Member>): seq<Member>
    decreases |data|
  {
    if |data| == 0 then target else Spread(Assign(target, data[0]), data[1..])
  }

  lemma {:induction false} AssignOtherKey(target: seq<Member>, m: Member, key: string)
    requires key != m.key
    ensures Get(Assign(target, m), key) == Get(target, key)
    decreases |target|
  {
    if |target| == 0 {
    } else if target[0].key == m.key {
      var r := [m] + target[1..];
      assert r[1..] == target[1..];
    } else {
      var r := [target[0]] + Assign(target[1..], m);
      assert r[1..] == Assign(target[1..], m);
      AssignOtherKey(target[1..], m, key);
    }
  }

  /** A key the object lacks goes last, after the members already there. */
  lemma {:induction false} AssignAppends(target: seq<Member>, m: Member)
    requires forall i | 0 <= i < |target| :: target[i].key != m.key
    ensures Assign(target, m) == target + [m]
    decreases |target|
  {
    if |target| > 0 {
      AssignAppends(target[1..], m);
      assert target == [target[0]] + target[1..];
    }
  }

  lemma AssignNewKey(target: seq<Member>, m: Member)
    requires forall i | 0 <= i < |target| :: target[i].key != m.key
    ensures Assign(target, m) == target + [m]
    ensures Get(Assign(target, m), m.key) == Some(m.value)
  {
    AssignAppends(target, m);
    var r := target + [m];
    assert forall i | 0 <= i < |target| :: r[i] == target[i];
    assert r[|target|] == m;
  }

  /** A key that `data` does not mention keeps the value it had in
      `target`. */
  lemma {:induction false} SpreadOtherKey(target: seq<Member>, data: seq<Member>, key: string)
    requires forall i | 0 <= i < |data| :: data[i].key != key
    ensures Get(Spread(target, data), key) == Get(target, key)
    decreases |data|
  {
    if |data| > 0 {
      AssignOtherKey(target, data[0], key);
      SpreadOtherKey(Assign(target, data[0]), data[1..], key);
    }
  }

  /** Every member value of an object is well formed. */
  predicate MembersWellFormed(ms: seq<Member>) {
    forall i | 0 <= i < |ms| :: WellFormed(ms[i].value)
  }

  lemma {:induction false} AssignWellFormed(target: seq<Member>, m: Member)
    requires MembersWellFormed(target) && WellFormed(m.value)
    ensures MembersWellFormed(Assign(target, m))
    decreases |target|
  {
    if |target| == 0 {
    } else if target[0].key == m.key {
      var r := [m] + target[1..];
      assert forall i | 1 <= i < |r| :: r[i] == target[i];
    } else {
      AssignWellFormed(target[1..], m);
      var tail := Assign(target[1..], m);
      var r := [target[0]] + tail;
      assert forall i | 1 <= i < |r| :: r[i] == tail[i - 1];
    }
  }

  lemma {:induction false} SpreadWellFormed(target: seq<Member>, data: seq<Member>)
    requires MembersWellFormed(target) && MembersWellFormed(data)
    ensures MembersWellFormed(Spread(target, data))
    decreases |data|
  {
    if |data| > 0 {
      AssignWellFormed(target, data[0]);
      SpreadWellFormed(Assign(target, data[0]), data[1..]);
    }
  }

  /* ---------------------------------------------------------------------
     Serializer (JSON.stringify, no indentation)
     --------------------------------------------------------------------- */

  function HexDigit(n: nat): (c: char)
    requires n < 16
  {
    if n < 10 then ('0' as int + n) as char else ('a' as int + n - 10) as char
  }

  /** How `JSON.stringify` writes one character of a string: the two
      mandatory escapes, the short forms for control characters that have
      one, `\u00xx` in lower-case hex for the other control characters, and
      every other character as itself. */
  function EscapeChar(c: char): string {
    if c == '"' then "\\\""
    else if c == '\\' then "\\\\"
    else if c as int == 0x08 then "\\b"
    else if c as int == 0x0C then "\\f"
    else if c == '\n' then "\\n"
    else if c == '\r' then "\\r"
    else if c == '\t' then "\\t"
    else if (c as int) < 0x20 then "\\u00" + [HexDigit(c as int / 16), HexDigit(c as int % 16)]
    else [c]
  }

  function Escape(s: string): string {
    if |s| == 0 then "" else EscapeChar(s[0]) + Escape(s[1..])
  }

  function Quote(s: string): string {
    "\"" + Escape(s) + "\""
  }

  function Stringify(j: Json): string
    decreases j, 1
  {
    match j
    case JNull => "null"
    case JBool(b) => if b then "true" else "false"
    case JNumber(lex) => lex
    case JString(s) => Quote(s)
    case JArray(items) => "[" + StringifyItems(items) + "]"
    case JObject(ms) => "{" + StringifyMembers(ms) + "}"
  }

  function StringifyItems(items: seq<Json>): string
    decreases items, 0
  {
    if |items| == 0 then ""
    else if |items| == 1 then Stringify(items[0])
    else Stringify(items[0]) + "," + StringifyItems(items[1..])
  }

  function StringifyMember(m: Member): string
    decreases m, 0
  {
    Quote(m.key) + ":" + Stringify(m.value)
  }

  function StringifyMembers(ms: seq<Member>): string
    decreases ms, 0
  {
    if |ms| == 0 then ""
    else if |ms| == 1 then StringifyMember(ms[0])
    else StringifyMember(ms[0]) + "," + StringifyMembers(ms[1..])
  }

  /* ---------------------------------------------------------------------
     Parser (JSON.parse)
     Each function reads a prefix of its input and returns what it read
     together with the unread rest.
     --------------------------------------------------------------------- */

  function SkipWs(s: string): (r: string)
    ensures |r| <= |s|
    ensures |r| == 0 || !IsWs(r[0])
  {
    if 0 < |s| && IsWs(s[0]) then SkipWs(s[1..]) else s
  }

  function HexValue(c: char): Option<nat> {
    if '0' <= c <= '9' then Some(c as int - '0' as int)
    else if 'a' <= c <= 'f' then Some(c as int - 'a' as int + 10)
    else if 'A' <= c <= 'F' then Some(c as int - 'A' as int + 10)
    else None
  }

  /** Four hex digits, as after `\u`. */
  function ParseHex4(s: string): (r: Option<(nat, string)>)
    ensures r.Some? ==> r.value.0 < 0x10000 && 4 <= |s| && r.value.1 == s[4..]
  {
    if |s| < 4 then None
    else
      match (HexValue(s[0]), HexValue(s[1]), HexValue(s[2]), HexValue(s[3]))
      case (Some(a), Some(b), Some(c), Some(d)) =>
        if a < 16 && b < 16 && c < 16 && d < 16 then
          Some((a * 4096 + b * 256 + c * 16 + d, s[4..]))
        else None
      case _ => None
  }

  /** The escape sequence after a backslash inside a string. A `\u` escape
      of a high surrogate must be followed by one of a low surrogate; the
      pair then denotes one character. */
  function ParseEscape(s: string): (r: Option<(char, string)>)
    ensures r.Some? ==> |r.value.1| < |s|
  {
    if |s| == 0 then None
    else if s[0] == '"' then Some(('"', s[1..]))
    else if s[0] == '\\' then Some(('\\', s[1..]))
    else if s[0] == '/' then Some(('/', s[1..]))
    else if s[0] == 'b' then Some((0x08 as char, s[1..]))
    else if s[0] == 'f' then Some((0x0C as char, s[1..]))
    else if s[0] == 'n' then Some(('\n', s[1..]))
    else if s[0] == 'r' then Some(('\r', s[1..]))
    else if s[0] == 't' then Some(('\t', s[1..]))
    else if s[0] == 'u' then
      match ParseHex4(s[1..])
      case None => None
      case Some((hi, rest)) =>
        if hi < 0xD800 || 0xE000 <= hi then Some((hi as char, rest))
        else if hi < 0xDC00 && 2 <= |rest| && rest[0] == '\\' && rest[1] == 'u' then
          match ParseHex4(rest[2..])
          case None => None
          case Some((lo, rest2)) =>
            if 0xDC00 <= lo < 0xE000 then
              Some(((0x10000 + (hi - 0xD800) * 0x400 + (lo - 0xDC00)) as char, rest2))
            else None
        else None
    else None
  }

  /** The body of a string after its opening quote, up to and including
      the closing quote. Unescaped control characters are rejected. */
  function ParseString(s: string): (r: Option<(string, string)>)
    ensures r.Some? ==> |r.value.1| < |s|
    decreases |s|
  {
    if |s| == 0 then None
    else if s[0] == '"' then Some(([], s[1..]))
    else if s[0] == '\\' then
      match ParseEscape(s[1..])
      case None => None
      case Some((c, rest)) =>
        match ParseString(rest)
        case None => None
        case Some((t, rest2)) => Some(([c] + t, rest2))
    else if (s[0] as int) < 0x20 then None
    else
      match ParseString(s[1..])
      case None => None
      case Some((t, rest)) => Some(([s[0]] + t, rest))
  }

  /** Length of the longest prefix made of number characters. */
  function NumberRunLength(s: string): (n: nat)
    ensures n <= |s|
    ensures forall i | 0 <= i < n :: IsNumberChar(s[i])
    ensures n == |s| || !IsNumberChar(s[n])
  {
    if 0 < |s| && IsNumberChar(s[0]) then 1 + NumberRunLength(s[1..]) else 0
  }

  /** A number token: the longest run of number characters, which must
      match the number grammar. (Any valid document has a delimiter right
      after a number, so taking the longest run rejects nothing valid.) */
  function ParseNumber(s: string): (r: Option<(Json, string)>)
    ensures r.Some? ==> |r.value.1| < |s| && WellFormed(r.value.0)
  {
    var n := NumberRunLength(s);
    if ValidNumber(s[..n]) then Some((JNumber(s[..n]), s[n..])) else None
  }

  function ParseLiteral(s: string, word: string, v: Json): (r: Option<(Json, string)>)
    requires 0 < |word|
    ensures r.Some? ==> |r.value.1| < |s|
  {
    if |word| <= |s| && s[..|word|] == word then Some((v, s[|word|..])) else None
  }

  /** One value with the whitespace around it. */
  function ParseValue(s: string): (r: Option<(Json, string)>)
    ensures r.Some? ==> |r.value.1| < |s| && WellFormed(r.value.0)
    ensures r.Some? ==> |r.value.1| == 0 || !IsWs(r.value.1[0])
    decreases |s|, 3
  {
    match ParseToken(SkipWs(s))
    case None => None
    case Some((v, rest)) => Some((v, SkipWs(rest)))
  }

  /** One value without surrounding whitespace, chosen by its first
      character. */
  function ParseToken(t: string): (r: Option<(Json, string)>)
    ensures r.Some? ==> |r.value.1| < |t| && WellFormed(r.value.0)
    decreases |t|, 2
  {
    if |t| == 0 then None
    else if t[0] == 'n' then ParseLiteral(t, "null", JNull)
    else if t[0] == 't' then ParseLiteral(t, "true", JBool(true))
    else if t[0] == 'f' then ParseLiteral(t, "false", JBool(false))
    else if t[0] == '"' then
      match ParseString(t[1..])
      case None => None
      case Some((str, rest)) => Some((JString(str), rest))
    else if t[0] == '[' then ParseArray(t[1..])
    else if t[0] == '{' then ParseObject(t[1..])
    else ParseNumber(t)
  }

  /** The rest of an array after its `[`. */
  function ParseArray(s: string): (r: Option<(Json, string)>)
    ensures r.Some? ==> |r.value.1| < |s| && WellFormed(r.value.0)
    decreases |s|, 5
  {
    var u := SkipWs(s);
    if 0 < |u| && u[0] == ']' then Some((JArray([]), u[1..]))
    else
      match ParseElements(u)
      case None => None
      case Some((items, rest)) => Some((JArray(items), rest))
  }

  /** The rest of an object after its `{`. */
  function ParseObject(s: string): (r: Option<(Json, string)>)
    ensures r.Some? ==> |r.value.1| < |s| && WellFormed(r.value.0)
    decreases |s|, 5
  {
    var u := SkipWs(s);
    if 0 < |u| && u[0] == '}' then Some((JObject([]), u[1..]))
    else
      match ParseMembers(u)
      case None => None
      case Some((ms, rest)) => Some((JObject(ms), rest))
  }

  /** `value (',' value)* ']'` */
  function ParseElements(s: string): (r: Option<(seq<Json>, string)>)
    ensures r.Some? ==> |r.value.1| < |s|
    ensures r.Some? ==> forall i | 0 <= i < |r.value.0| :: WellFormed(r.value.0[i])
    decreases |s|, 4
  {
    match ParseValue(s)
    case None => None
    case Some((v, rest)) =>
      if 0 < |rest| && rest[0] == ',' then
        match ParseElements(rest[1..])
        case None => None
        case Some((vs, rest2)) => Some(([v] + vs, rest2))
      else if 0 < |rest| && rest[0] == ']' then Some(([v], rest[1..]))
      else None
  }

  /** `member (',' member)* '}'` */
  function ParseMembers(s: string): (r: Option<(seq<Member>, string)>)
    ensures r.Some? ==> |r.value.1| < |s|
    ensures r.Some? ==> MembersWellFormed(r.value.0)
    decreases |s|, 4
  {
    match ParseMember(s)
    case None => None
    case Some((m, rest)) =>
      if 0 < |rest| && rest[0] == ',' then
        match ParseMembers(rest[1..])
        case None => None
        case Some((ms, rest2)) => Some(([m] + ms, rest2))
      else if 0 < |rest| && rest[0] == '}' then Some(([m], rest[1..]))
      else None
  }

  /** `string ':' value`, with whitespace around each part. */
  function ParseMember(s: string): (r: Option<(Member, string)>)
    ensures r.Some? ==> |r.value.1| < |s| && WellFormed(r.value.0.value)
    decreases |s|, 3
  {
    match ParseKey(s)
    case None => None
    case Some((key, rest)) =>
      match ParseValue(rest)
      case None => None
      case Some((v, rest2)) => Some((Member(key, v), rest2))
  }

  /** A member's key and the `:` after it. */
  function ParseKey(s: string): (r: Option<(string, string)>)
    ensures r.Some? ==> |r.value.1| < |s|
  {
    var t := SkipWs(s);
    if |t| == 0 || t[0] != '"' then None
    else
      match ParseString(t[1..])
      case None => None
      case Some((key, rest)) =>
        var u := SkipWs(rest);
        if |u| == 0 || u[0] != ':' then None
        else Some((key, u[1..]))
  }

  /** `JSON.parse`: one value and nothing but whitespace around it; `None`
      where `JSON.parse` throws a `SyntaxError`. */
  function Parse(s: string): (r: Option<Json>)
    ensures r.Some? ==> WellFormed(r.value)
  {
    match ParseValue(s)
    case None => None
    case Some((v, rest)) => if |rest| == 0 then Some(v) else None
  }

  /* ---------------------------------------------------------------------
     Round trip
     --------------------------------------------------------------------- */

  /** What may follow a value inside serializer output. */
  predicate Delimited(rest: string) {
    |rest| == 0 || rest[0] == ',' || rest[0] == ']' || rest[0] == '}'
  }

  lemma SkipWsNone(s: string)
    requires |s| == 0 || !IsWs(s[0])
    ensures SkipWs(s) == s
  {
  }

  lemma HexDigitValue(n: nat)
    requires n < 16
    ensures HexValue(HexDigit(n)) == Some(n)
  {
  }

  /** What `ParseString` makes of input that starts with a character read
      as `c` and continues with `tail`. */
  function ThenChar(c: char, tail: string): Option<(string, string)> {
    match ParseString(tail)
    case None => None
    case Some((t, rest)) => Some(([c] + t, rest))
  }

  /** Reading back one escaped character, whatever follows it. */
  lemma EscapeCharRoundTrip(c: char, tail: string)
    ensures ParseString(EscapeChar(c) + tail) == ThenChar(c, tail)
  {
    if c == '"' || c == '\\' || c as int == 0x08 || c as int == 0x0C || c == '\n' || c == '\r' || c == '\t' {
      ShortEscapeRoundTrip(c, tail);
    } else if (c as int) < 0x20 {
      UnicodeEscapeRoundTrip(c, tail);
    } else {
      var s := EscapeChar(c) + tail;
      assert EscapeChar(c) == [c];
      assert s[1..] == tail;
    }
  }

  lemma ShortEscapeRoundTrip(c: char, tail: string)
    requires c == '"' || c == '\\' || c as int == 0x08 || c as int == 0x0C || c == '\n' || c == '\r' || c == '\t'
    ensures ParseString(EscapeChar(c) + tail) == ThenChar(c, tail)
  {
    var s := EscapeChar(c) + tail;
    assert |EscapeChar(c)| == 2 && EscapeChar(c)[0] == '\\';
    assert s[1..][1..] == tail;
    assert ParseEscape(s[1..]) == Some((c, tail));
  }

  lemma UnicodeEscapeRoundTrip(c: char, tail: string)
    requires (c as int) < 0x20
    requires c as int != 0x08 && c as int != 0x0C && c != '\n' && c != '\r' && c != '\t'
    ensures ParseString(EscapeChar(c) + tail) == ThenChar(c, tail)
  {
    var hi, lo := c as int / 16, c as int % 16;
    var s := EscapeChar(c) + tail;
    assert EscapeChar(c) == "\\u00" + [HexDigit(hi), HexDigit(lo)];
    HexDigitValue(hi);
    HexDigitValue(lo);
    var hex := s[1..][1..];
    assert hex == "00" + [HexDigit(hi), HexDigit(lo)] + tail;
    assert ParseHex4(hex) == Some((c as int, tail));
    assert ParseEscape(s[1..]) == Some((c, tail));
  }

  lemma {:induction false} EscapeRoundTrip(str: string, rest: string)
    ensures ParseString(Escape(str) + "\"" + rest) == Some((str, rest))
    decreases |str|
  {
    if |str| == 0 {
      assert Escape(str) + "\"" + rest == "\"" + rest;
      assert ("\"" + rest)[1..] == rest;
    } else {
      var tail := Escape(str[1..]) + "\"" + rest;
      assert Escape(str) + "\"" + rest == EscapeChar(str[0]) + tail;
      EscapeRoundTrip(str[1..], rest);
      EscapeCharRoundTrip(str[0], tail);
      assert [str[0]] + str[1..] == str;
    }
  }

  lemma StringifyHead(j: Json)
    requires WellFormed(j)
    ensures 0 < |Stringify(j)| && !IsWs(Stringify(j)[0])
    ensures j.JNumber? ==> Stringify(j)[0] == '-' || IsDigit(Stringify(j)[0])
  {
  }

  lemma {:induction false} NumberRunOfLexeme(lex: string, rest: string)
    requires forall i | 0 <= i < |lex| :: IsNumberChar(lex[i])
    requires Delimited(rest)
    ensures NumberRunLength(lex + rest) == |lex|
    decreases |lex|
  {
    if |lex| == 0 {
      assert lex + rest == rest;
      assert |rest| == 0 || !IsNumberChar(rest[0]);
    } else {
      var s := lex + rest;
      assert s[0] == lex[0] && IsNumberChar(s[0]);
      assert s[1..] == lex[1..] + rest;
      NumberRunOfLexeme(lex[1..], rest);
      assert NumberRunLength(s) == 1 + NumberRunLength(s[1..]);
    }
  }

  /** Every well-formed value is read back from its own serialization,
      leaving exactly what followed it. */
  lemma {:induction false} ParseStringifyValue(j: Json, rest: string)
    requires WellFormed(j)
    requires Delimited(rest)
    ensures ParseValue(Stringify(j) + rest) == Some((j, rest))
    decreases j, 5
  {
    match j
    case JArray(items) => ParseStringifyArray(items, rest);
    case JObject(ms) => ParseStringifyObject(ms, rest);
    case _ => ParseStringifyScalar(j, rest);
  }

  lemma ParseStringifyScalar(j: Json, rest: string)
    requires WellFormed(j) && !j.JArray? && !j.JObject?
    requires Delimited(rest)
    ensures ParseValue(Stringify(j) + rest) == Some((j, rest))
  {
    var s := Stringify(j) + rest;
    StringifyHead(j);
    match j
    case JNull => ParseTokenLiteral("null", JNull, rest);
    case JBool(b) =>
      if b {
        ParseTokenLiteral("true", j, rest);
      } else {
        ParseTokenLiteral("false", j, rest);
      }
    case JNumber(lex) => ParseTokenNumber(lex, rest);
    case JString(str) => ParseTokenString(str, rest);
    ParseValueOfToken(s, j, rest);
  }

  lemma ParseTokenLiteral(word: string, v: Json, rest: string)
    requires (word == "null" && v == JNull) || (word == "true" && v == JBool(true))
          || (word == "false" && v == JBool(false))
    ensures ParseToken(word + rest) == Some((v, rest))
  {
    var s := word + rest;
    assert s[..|word|] == word && s[|word|..] == rest;
    assert s[0] == word[0];
  }

  lemma ParseTokenNumber(lex: string, rest: string)
    requires WellFormed(JNumber(lex))
    requires Delimited(rest)
    ensures ParseToken(lex + rest) == Some((JNumber(lex), rest))
  {
    var s := lex + rest;
    StringifyHead(JNumber(lex));
    assert s[0] == lex[0];
    assert ParseToken(s) == ParseNumber(s);
    NumberRunOfLexeme(lex, rest);
    assert s[..|lex|] == lex && s[|lex|..] == rest;
  }

  lemma ParseTokenString(str: string, rest: string)
    ensures ParseToken(Quote(str) + rest) == Some((JString(str), rest))
  {
    var s := Quote(str) + rest;
    assert s[0] == '"';
    assert s[1..] == Escape(str) + "\"" + rest;
    EscapeRoundTrip(str, rest);
  }

  /** A value that starts right away is its token, when what follows the
      token starts right away too. */
  lemma ParseValueOfToken(s: string, v: Json, rest: string)
    requires |s| == 0 || !IsWs(s[0])
    requires ParseToken(s) == Some((v, rest))
    requires |rest| == 0 || !IsWs(rest[0])
    ensures ParseValue(s) == Some((v, rest))
  {
    SkipWsNone(s);
    SkipWsNone(rest);
  }

  lemma ParseTokenArray(t: string)
    requires 0 < |t| && t[0] == '['
    ensures ParseToken(t) == ParseArray(t[1..])
  {
    assert t[0] != 'n' && t[0] != 't' && t[0] != 'f' && t[0] != '"';
  }

  lemma ParseTokenObject(t: string)
    requires 0 < |t| && t[0] == '{'
    ensures ParseToken(t) == ParseObject(t[1..])
  {
    assert t[0] != 'n' && t[0] != 't' && t[0] != 'f' && t[0] != '"';
  }

  lemma {:induction false} ParseStringifyArray(items: seq<Json>, rest: string)
    requires forall i | 0 <= i < |items| :: WellFormed(items[i])
    requires Delimited(rest)
    ensures ParseValue(Stringify(JArray(items)) + rest) == Some((JArray(items), rest))
    decreases items, 4
  {
    var body := StringifyItems(items) + "]" + rest;
    var s := Stringify(JArray(items)) + rest;
    assert s == "[" + body;
    assert s[1..] == body;
    ParseArrayBody(items, rest);
    ParseTokenArray(s);
    ParseValueOfToken(s, JArray(items), rest);
  }

  lemma {:induction false} ParseArrayBody(items: seq<Json>, rest: string)
    requires forall i | 0 <= i < |items| :: WellFormed(items[i])
    ensures ParseArray(StringifyItems(items) + "]" + rest) == Some((JArray(items), rest))
    decreases items, 3
  {
    var body := StringifyItems(items) + "]" + rest;
    if |items| == 0 {
      assert body == "]" + rest;
      SkipWsNone(body);
      assert body[1..] == rest;
    } else {
      StringifyItemsHead(items);
      SkipWsNone(body);
      ParseStringifyItems(items, rest);
    }
  }

  lemma {:induction false} ParseStringifyObject(ms: seq<Member>, rest: string)
    requires MembersWellFormed(ms)
    requires Delimited(rest)
    ensures ParseValue(Stringify(JObject(ms)) + rest) == Some((JObject(ms), rest))
    decreases ms, 4
  {
    var body := StringifyMembers(ms) + "}" + rest;
    var s := Stringify(JObject(ms)) + rest;
    assert s == "{" + body;
    assert s[1..] == body;
    ParseObjectBody(ms, rest);
    ParseTokenObject(s);
    ParseValueOfToken(s, JObject(ms), rest);
  }

  lemma {:induction false} ParseObjectBody(ms: seq<Member>, rest: string)
    requires MembersWellFormed(ms)
    ensures ParseObject(StringifyMembers(ms) + "}" + rest) == Some((JObject(ms), rest))
    decreases ms, 3
  {
    var body := StringifyMembers(ms) + "}" + rest;
    if |ms| == 0 {
      assert body == "}" + rest;
      SkipWsNone(body);
      assert body[1..] == rest;
    } else {
      StringifyMembersHead(ms);
      SkipWsNone(body);
      ParseStringifyMembers(ms, rest);
    }
  }

  lemma StringifyItemsHead(items: seq<Json>)
    requires 0 < |items| && WellFormed(items[0])
    ensures 0 < |StringifyItems(items)| && !IsWs(StringifyItems(items)[0])
  {
    StringifyHead(items[0]);
  }

  lemma {:induction false} ParseStringifyItems(items: seq<Json>, rest: string)
    requires 0 < |items|
    requires forall i | 0 <= i < |items| :: WellFormed(items[i])
    ensures ParseElements(StringifyItems(items) + "]" + rest) == Some((items, rest))
    decreases items, 2
  {
    var s := StringifyItems(items) + "]" + rest;
    if |items| == 1 {
      var after := "]" + rest;
      assert s == Stringify(items[0]) + after;
      ParseStringifyValue(items[0], after);
      assert after[1..] == rest;
      assert [items[0]] == items;
    } else {
      var after := "," + (StringifyItems(items[1..]) + "]" + rest);
      assert s == Stringify(items[0]) + after;
      ParseStringifyValue(items[0], after);
      assert after[1..] == StringifyItems(items[1..]) + "]" + rest;
      ParseStringifyItems(items[1..], rest);
      assert [items[0]] + items[1..] == items;
    }
  }

  lemma StringifyMembersHead(ms: seq<Member>)
    requires 0 < |ms|
    ensures 0 < |StringifyMembers(ms)| && StringifyMembers(ms)[0] == '"'
  {
  }

  lemma {:induction false} ParseStringifyMember(m: Member, after: string)
    requires WellFormed(m.value)
    requires Delimited(after)
    ensures ParseMember(StringifyMember(m) + after) == Some((m, after))
    decreases m, 3
  {
    var valueText := Stringify(m.value) + after;
    MemberText(m, after);
    ParseKeyOf(m.key, valueText);
    ParseStringifyValue(m.value, after);
  }

  lemma MemberText(m: Member, after: string)
    ensures StringifyMember(m) + after == Quote(m.key) + (":" + (Stringify(m.value) + after))
  {
  }

  lemma ParseKeyOf(key: string, rest: string)
    ensures ParseKey(Quote(key) + (":" + rest)) == Some((key, rest))
  {
    var s := Quote(key) + (":" + rest);
    var afterKey := ":" + rest;
    assert s[0] == '"';
    SkipWsNone(s);
    assert s[1..] == Escape(key) + "\"" + afterKey;
    EscapeRoundTrip(key, afterKey);
    SkipWsNone(afterKey);
    assert afterKey[1..] == rest;
  }

  /** The member list ends at a `}` after its last member. */
  lemma ParseMembersLast(s: string, m: Member, rest: string)
    requires ParseMember(s) == Some((m, "}" + rest))
    ensures ParseMembers(s) == Some(([m], rest))
  {
    assert ("}" + rest)[1..] == rest;
  }

  /** A `,` after a member continues the list. */
  lemma ParseMembersNext(s: string, m: Member, tail: string, ms: seq<Member>, rest: string)
    requires ParseMember(s) == Some((m, "," + tail))
    requires ParseMembers(tail) == Some((ms, rest))
    ensures ParseMembers(s) == Some(([m] + ms, rest))
  {
    assert ("," + tail)[1..] == tail;
  }

  /** Regrouping of the text around a `,` between two members. */
  lemma RegroupComma(a: string, b: string, rest: string)
    ensures a + "," + b + "}" + rest == a + ("," + (b + "}" + rest))
  {
  }

  lemma RegroupBrace(a: string, rest: string)
    ensures a + "}" + rest == a + ("}" + rest)
  {
  }

  /** The text of a member list split at its first member. */
  lemma MembersText(ms: seq<Member>, rest: string)
    requires 1 < |ms|
    ensures StringifyMembers(ms) + "}" + rest
         == StringifyMember(ms[0]) + ("," + (StringifyMembers(ms[1..]) + "}" + rest))
  {
    RegroupComma(StringifyMember(ms[0]), StringifyMembers(ms[1..]), rest);
  }

  lemma {:induction false} ParseStringifyMembers(ms: seq<Member>, rest: string)
    requires 0 < |ms|
    requires MembersWellFormed(ms)
    ensures ParseMembers(StringifyMembers(ms) + "}" + rest) == Some((ms, rest))
    decreases ms, 2
  {
    var s := StringifyMembers(ms) + "}" + rest;
    assert WellFormed(ms[0].value);
    if |ms| == 1 {
      var after := "}" + rest;
      assert StringifyMembers(ms) == StringifyMember(ms[0]);
      RegroupBrace(StringifyMember(ms[0]), rest);
      ParseStringifyMember(ms[0], after);
      ParseMembersLast(s, ms[0], rest);
      assert [ms[0]] == ms;
    } else {
      var tail := StringifyMembers(ms[1..]) + "}" + rest;
      MembersText(ms, rest);
      ParseStringifyMember(ms[0], "," + tail);
      assert MembersWellFormed(ms[1..]) by {
        assert forall i | 0 <= i < |ms[1..]| :: ms[1..][i] == ms[i + 1];
      }
      ParseStringifyMembers(ms[1..], rest);
      ParseMembersNext(s, ms[0], tail, ms[1..], rest);
      assert [ms[0]] + ms[1..] == ms;
    }
  }

  /** `JSON.parse(JSON.stringify(v))` gives back `v` for every well-formed
      value. */
  lemma ParseStringify(j: Json)
    requires WellFormed(j)
    ensures Parse(Stringify(j)) == Some(j)
  {
    ParseStringifyValue(j, "");
    assert Stringify(j) + "" == Stringify(j);
  }
}
