/**
 * JSON values as the JavaScript runtime sees them after `JSON.parse`, a model
 * of `JSON.parse` (RFC 8259 grammar, white space = space, tab, LF, CR) and of
 * `JSON.stringify`, and the round trip between the two.
 *
 * Numbers are kept as their lexeme; object members are kept in document order
 * and a property read takes the LAST member with that key, as `JSON.parse`
 * does when a key repeats.
 */
module Json {
  import opened Wrappers
  import opened Text

  datatype Json =
    | JNull
    | JBool(b: bool)
    | JNumber(lexeme: string)
    | JString(s: string)
    | JArray(items: seq<Json>)
    | JObject(members: seq<Member>)

  datatype Member = Member(key: string, value: Json)

  // ---------------------------------------------------------------------------
  // Property access and truthiness
  // ---------------------------------------------------------------------------

  /** The value of the last member named `key`, if any. */
  function Get(members: seq<Member>, key: string): (r: Option<Json>)
    ensures r.None? <==> forall i :: 0 <= i < |members| ==> members[i].key != key
    ensures r.Some? ==> exists i :: 0 <= i < |members| && members[i] == Member(key, r.value)
    ensures r.Some? && members[|members| - 1].key == key ==> r.value == members[|members| - 1].value
  {
    if members == [] then None
    else if members[|members| - 1].key == key then Some(members[|members| - 1].value)
    else
      var r := Get(members[..|members| - 1], key);
      assert forall i :: 0 <= i < |members| - 1 ==> members[..|members| - 1][i] == members[i];
      r
  }

  /** `v?.key`: only objects have the properties this model reads. */
  function Field(v: Json, key: string): Option<Json>
  {
    if v.JObject? then Get(v.members, key) else None
  }

  /** `typeof v?.key === "string" ? v.key : ""`. */
  function StringField(v: Json, key: string): (s: string)
    ensures (Field(v, key).Some? && Field(v, key).value.JString?) ==> s == Field(v, key).value.s
    ensures !(Field(v, key).Some? && Field(v, key).value.JString?) ==> s == ""
  {
    match Field(v, key)
    case Some(JString(s)) => s
    case _ => ""
  }

  /** A number lexeme denotes a non-zero value when its mantissa has a non-zero digit. */
  predicate NonZeroMantissa(t: string)
  {
    exists i :: 0 <= i < |t| && '1' <= t[i] <= '9' && forall j :: 0 <= j < i ==> t[j] != 'e' && t[j] != 'E'
  }

  /** JavaScript truthiness of a parsed value. */
  predicate Truthy(v: Json)
  {
    match v
    case JNull => false
    case JBool(b) => b
    case JNumber(t) => NonZeroMantissa(t)
    case JString(s) => s != ""
    case JArray(_) => true
    case JObject(_) => true
  }

  // ---------------------------------------------------------------------------
  // Lexical level
  // ---------------------------------------------------------------------------

  predicate IsJsonSpace(c: char)
  {
    c == ' ' || c == '\t' || c == '\n' || c == '\r'
  }

  function SkipWs(s: string): (r: string)
    ensures |r| <= |s|
    ensures r == [] || !IsJsonSpace(r[0])
  {
    if s != [] && IsJsonSpace(s[0]) then SkipWs(s[1..]) else s
  }

  predicate IsHex(c: char)
  {
    IsDigit(c) || 'a' <= c <= 'f' || 'A' <= c <= 'F'
  }

  function HexValue(c: char): (n: nat)
    requires IsHex(c)
    ensures n < 16
  {
    if IsDigit(c) then c as int - '0' as int
    else if 'a' <= c <= 'f' then c as int - 'a' as int + 10
    else c as int - 'A' as int + 10
  }

  predicate AllHex(s: string)
  {
    forall i :: 0 <= i < |s| ==> IsHex(s[i])
  }

  /** The value of four hexadecimal digits: one UTF-16 code unit. */
  function Hex4(s: string): (n: nat)
    requires |s| == 4 && AllHex(s)
    ensures n < 0x1_0000
  {
    ((HexValue(s[0]) * 16 + HexValue(s[1])) * 16 + HexValue(s[2])) * 16 + HexValue(s[3])
  }

  /** Lower-case hexadecimal digit, as `JSON.stringify` writes them. */
  function HexDigit(n: nat): (c: char)
    requires n < 16
    ensures IsHex(c) && HexValue(c) == n
  {
    "0123456789abcdef"[n]
  }

  predicate IsNumberChar(c: char)
  {
    IsDigit(c) || c == '-' || c == '+' || c == '.' || c == 'e' || c == 'E'
  }

  /** Length of the longest prefix made of number characters. */
  function NumberRun(s: string): (n: nat)
    ensures n <= |s|
    ensures forall i :: 0 <= i < n ==> IsNumberChar(s[i])
    ensures n == |s| || !IsNumberChar(s[n])
  {
    if s != [] && IsNumberChar(s[0]) then 1 + NumberRun(s[1..]) else 0
  }

  /** Length of the longest prefix made of decimal digits. */
  function LeadingDigits(s: string): (n: nat)
    ensures n <= |s|
    ensures forall i :: 0 <= i < n ==> IsDigit(s[i])
    ensures n == |s| || !IsDigit(s[n])
  {
    if s != [] && IsDigit(s[0]) then 1 + LeadingDigits(s[1..]) else 0
  }

  /** The JSON number grammar: `-? (0 | [1-9][0-9]*) (. [0-9]+)? ([eE] [+-]? [0-9]+)?`. */
  predicate ValidNumber(t: string)
  {
    var u := if t != [] && t[0] == '-' then t[1..] else t;
    var i := LeadingDigits(u);
    i > 0 && (u[0] != '0' || i == 1) && ValidFraction(u[i..])
  }

  predicate ValidFraction(r: string)
  {
    if r != [] && r[0] == '.' then
      var j := LeadingDigits(r[1..]);
      j > 0 && ValidExponent(r[1 + j..])
    else ValidExponent(r)
  }

  predicate ValidExponent(r: string)
  {
    r == [] ||
    ((r[0] == 'e' || r[0] == 'E') &&
     var d := if |r| > 1 && (r[1] == '+' || r[1] == '-') then r[2..] else r[1..];
     d != [] && LeadingDigits(d) == |d|)
  }

  // ---------------------------------------------------------------------------
  // JSON.parse
  // ---------------------------------------------------------------------------

  /**
   * `JSON.parse(text)`: `None` where JSON.parse throws a SyntaxError.
   * Numbers: the JSON grammar must be followed by white space, `,`, `]`, `}`
   * or the end, none of which is a number character, so taking the longest
   * run of number characters and checking it against the grammar accepts
   * exactly the texts JSON.parse accepts.
   */
  function Parse(text: string): Option<Json>
  {
    match ParseValue(SkipWs(text))
    case None => None
    case Some((v, rest)) => if SkipWs(rest) == [] then Some(v) else None
  }

  /** A value at the very start of `s`, and what follows it. */
  function ParseValue(s: string): (r: Option<(Json, string)>)
    ensures r.Some? ==> |r.value.1| < |s|
    decreases |s|, 0
  {
    if s == [] then None
    else if s[0] == 'n' then
      if StartsWith(s, "null") then Some((JNull, s[4..])) else None
    else if s[0] == 't' then
      if StartsWith(s, "true") then Some((JBool(true), s[4..])) else None
    else if s[0] == 'f' then
      if StartsWith(s, "false") then Some((JBool(false), s[5..])) else None
    else if s[0] == '"' then
      match ParseStringBody(s[1..])
      case None => None
      case Some((str, rest)) => Some((JString(str), rest))
    else if s[0] == '[' then ParseArray(SkipWs(s[1..]))
    else if s[0] == '{' then ParseObject(SkipWs(s[1..]))
    else if s[0] == '-' || IsDigit(s[0]) then
      var n := NumberRun(s);
      if ValidNumber(s[..n]) then Some((JNumber(s[..n]), s[n..])) else None
    else None
  }

  /** The rest of an array after `[` and white space. */
  function ParseArray(s: string): (r: Option<(Json, string)>)
    ensures r.Some? ==> |r.value.1| < |s|
    decreases |s|, 2
  {
    if s != [] && s[0] == ']' then Some((JArray([]), s[1..]))
    else
      match ParseItems(s)
      case None => None
      case Some((items, rest)) => Some((JArray(items), rest))
  }

  /** One or more array elements, separated by `,` and closed by `]`. */
  function ParseItems(s: string): (r: Option<(seq<Json>, string)>)
    ensures r.Some? ==> |r.value.1| < |s|
    decreases |s|, 1
  {
    match ParseValue(s)
    case None => None
    case Some((v, r1)) =>
      var r2 := SkipWs(r1);
      if r2 != [] && r2[0] == ']' then Some(([v], r2[1..]))
      else if r2 != [] && r2[0] == ',' then
        match ParseItems(SkipWs(r2[1..]))
        case None => None
        case Some((more, r3)) => Some(([v] + more, r3))
      else None
  }

  /** The rest of an object after `{` and white space. */
  function ParseObject(s: string): (r: Option<(Json, string)>)
    ensures r.Some? ==> |r.value.1| < |s|
    decreases |s|, 2
  {
    if s != [] && s[0] == '}' then Some((JObject([]), s[1..]))
    else
      match ParseMembers(s)
      case None => None
      case Some((ms, rest)) => Some((JObject(ms), rest))
  }

  /** One or more members, separated by `,` and closed by `}`. */
  function ParseMembers(s: string): (r: Option<(seq<Member>, string)>)
    ensures r.Some? ==> |r.value.1| < |s|
    decreases |s|, 1
  {
    match ParseMember(s)
    case None => None
    case Some((m, r1)) =>
      var r2 := SkipWs(r1);
      if r2 != [] && r2[0] == '}' then Some(([m], r2[1..]))
      else if r2 != [] && r2[0] == ',' then
        match ParseMembers(SkipWs(r2[1..]))
        case None => None
        case Some((more, r3)) => Some(([m] + more, r3))
      else None
  }

  /** One `"key": value` member. */
  function ParseMember(s: string): (r: Option<(Member, string)>)
    ensures r.Some? ==> |r.value.1| < |s|
    decreases |s|, 0
  {
    if s == [] || s[0] != '"' then None
    else
      match ParseStringBody(s[1..])
      case None => None
      case Some((key, r1)) =>
        var r2 := SkipWs(r1);
        if r2 == [] || r2[0] != ':' then None
        else
          match ParseValue(SkipWs(r2[1..]))
          case None => None
          case Some((v, r3)) => Some((Member(key, v), r3))
  }

  /** The characters of a string literal after its opening quote, up to and excluding the closing one. */
  function ParseStringBody(s: string): (r: Option<(string, string)>)
    ensures r.Some? ==> |r.value.1| < |s|
  {
    if s == [] then None
    else if s[0] == '"' then Some(([], s[1..]))
    else if s[0] == '\\' then
      match ParseEscape(s[1..])
      case None => None
      case Some((c, r1)) =>
        match ParseStringBody(r1)
        case None => None
        case Some((str, r2)) => Some(([c] + str, r2))
    else if s[0] < ' ' then None
    else
      match ParseStringBody(s[1..])
      case None => None
      case Some((str, r1)) => Some(([s[0]] + str, r1))
  }

  predicate IsHighSurrogate(u: nat) { 0xD800 <= u < 0xDC00 }
  predicate IsLowSurrogate(u: nat) { 0xDC00 <= u < 0xE000 }

  /**
   * An escape sequence after its backslash. A `\u` escape of a high surrogate
   * must be followed by a `\u` escape of a low surrogate; the pair denotes one
   * character.
   */
  function ParseEscape(s: string): (r: Option<(char, string)>)
    ensures r.Some? ==> |r.value.1| < |s|
  {
    if s == [] then None
    else if s[0] == '"' || s[0] == '\\' || s[0] == '/' then Some((s[0], s[1..]))
    else if s[0] == 'b' then Some(('\U{0008}', s[1..]))
    else if s[0] == 'f' then Some(('\U{000C}', s[1..]))
    else if s[0] == 'n' then Some(('\n', s[1..]))
    else if s[0] == 'r' then Some(('\r', s[1..]))
    else if s[0] == 't' then Some(('\t', s[1..]))
    else if s[0] == 'u' && |s| >= 5 && AllHex(s[1..5]) then
      var u := Hex4(s[1..5]);
      if !IsHighSurrogate(u) && !IsLowSurrogate(u) then Some((u as char, s[5..]))
      else if IsHighSurrogate(u) && |s| >= 11 && s[5] == '\\' && s[6] == 'u' && AllHex(s[7..11])
              && IsLowSurrogate(Hex4(s[7..11])) then
        var cp := 0x1_0000 + (u - 0xD800) * 0x400 + (Hex4(s[7..11]) - 0xDC00);
        Some((cp as char, s[11..]))
      else None
    else None
  }

  // ---------------------------------------------------------------------------
  // JSON.stringify
  // ---------------------------------------------------------------------------

  /** One character inside a string literal, escaped as QuoteJSONString does. */
  function EscapeChar(c: char): string
  {
    if c == '"' then "\\\""
    else if c == '\\' then "\\\\"
    else if c == '\U{0008}' then "\\b"
    else if c == '\U{000C}' then "\\f"
    else if c == '\n' then "\\n"
    else if c == '\r' then "\\r"
    else if c == '\t' then "\\t"
    else if c < ' ' then "\\u00" + [HexDigit(c as int / 16), HexDigit(c as int % 16)]
    else [c]
  }

  function Escape(s: string): string
  {
    if s == [] then [] else EscapeChar(s[0]) + Escape(s[1..])
  }

  /** A string literal: the quoted, escaped text. */
  function Quote(s: string): string
  {
    "\"" + Escape(s) + "\""
  }

  /** `JSON.stringify(v)` with no white space; a number is written as its lexeme. */
  function Serialize(v: Json): string
  {
    match v
    case JNull => "null"
    case JBool(b) => if b then "true" else "false"
    case JNumber(t) => t
    case JString(s) => Quote(s)
    case JArray(items) => "[" + SerializeItems(items) + "]"
    case JObject(ms) => "{" + SerializeMembers(ms) + "}"
  }

  function SerializeItems(items: seq<Json>): string
  {
    if items == [] then ""
    else if |items| == 1 then Serialize(items[0])
    else Serialize(items[0]) + "," + SerializeItems(items[1..])
  }

  function SerializeMember(m: Member): string
  {
    Quote(m.key) + ":" + Serialize(m.value)
  }

  function SerializeMembers(ms: seq<Member>): string
  {
    if ms == [] then ""
    else if |ms| == 1 then SerializeMember(ms[0])
    else SerializeMember(ms[0]) + "," + SerializeMembers(ms[1..])
  }

  /** Values `JSON.stringify` can produce: every number is a valid lexeme. */
  predicate WellFormed(v: Json)
  {
    match v
    case JNumber(t) => ValidNumber(t)
    case JArray(items) => forall i :: 0 <= i < |items| ==> WellFormed(items[i])
    case JObject(ms) => forall i :: 0 <= i < |ms| ==> WellFormed(ms[i].value)
    case _ => true
  }

  // ---------------------------------------------------------------------------
  // Round trip: JSON.parse(JSON.stringify(v)) == v
  // ---------------------------------------------------------------------------

  /** What may follow a value without being read as part of it. */
  predicate Delimited(rest: string)
  {
    rest == [] || !IsNumberChar(rest[0])
  }

  lemma ValidNumberStart(t: string)
    requires ValidNumber(t)
    ensures t != [] && (t[0] == '-' || IsDigit(t[0]))
  {
  }

  predicate AllNumberChars(s: string)
  {
    forall i :: 0 <= i < |s| ==> IsNumberChar(s[i])
  }

  lemma AllNumberCharsSplit(s: string, k: nat)
    requires k <= |s| && AllNumberChars(s[..k]) && AllNumberChars(s[k..])
    ensures AllNumberChars(s)
  {
    forall i | 0 <= i < |s| ensures IsNumberChar(s[i]) {
      if i < k { assert s[i] == s[..k][i]; } else { assert s[i] == s[k..][i - k]; }
    }
  }

  lemma DigitRunChars(s: string)
    ensures AllNumberChars(s[..LeadingDigits(s)])
  {
  }

  lemma ExponentChars(r: string)
    requires ValidExponent(r)
    ensures AllNumberChars(r)
  {
    if r != [] {
      var k := if |r| > 1 && (r[1] == '+' || r[1] == '-') then 2 else 1;
      assert AllNumberChars(r[..k]);
      AllNumberCharsSplit(r, k);
    }
  }

  lemma FractionChars(r: string)
    requires ValidFraction(r)
    ensures AllNumberChars(r)
  {
    if r != [] && r[0] == '.' {
      var f := r[1..];
      var j := LeadingDigits(f);
      ExponentChars(f[j..]);
      DigitRunChars(f);
      AllNumberCharsSplit(f, j);
      assert r == r[..1] + f;
      AllNumberCharsSplit(r, 1);
    } else {
      ExponentChars(r);
    }
  }

  /** A valid number lexeme is made of number characters only. */
  lemma ValidNumberChars(t: string)
    requires ValidNumber(t)
    ensures AllNumberChars(t)
  {
    var k := if t != [] && t[0] == '-' then 1 else 0;
    var u := t[k..];
    var i := LeadingDigits(u);
    DigitRunChars(u);
    FractionChars(u[i..]);
    AllNumberCharsSplit(u, i);
    AllNumberCharsSplit(t, k);
  }

  lemma {:induction false} NumberRunOfLexeme(t: string, rest: string)
    requires AllNumberChars(t)
    requires Delimited(rest)
    ensures NumberRun(t + rest) == |t|
  {
    if t != [] {
      assert (t + rest)[1..] == t[1..] + rest;
      NumberRunOfLexeme(t[1..], rest);
    }
  }

  lemma {:induction false} SerializeStart(v: Json)
    requires WellFormed(v)
    ensures Serialize(v) != [] && !IsJsonSpace(Serialize(v)[0]) && Serialize(v)[0] != ']'
  {
    if v.JNumber? { ValidNumberStart(v.lexeme); }
  }

  /** `c` in front of what a string-literal parse produced. */
  function PrependChar(c: char, r: Option<(string, string)>): Option<(string, string)>
  {
    match r
    case None => None
    case Some((str, rest)) => Some(([c] + str, rest))
  }

  lemma StringBodyEscapeStep(s: string, c: char, r1: string)
    requires s != [] && s[0] == '\\' && ParseEscape(s[1..]) == Some((c, r1))
    ensures ParseStringBody(s) == PrependChar(c, ParseStringBody(r1))
  {
  }

  lemma StringBodyPlainStep(s: string)
    requires s != [] && s[0] != '"' && s[0] != '\\' && s[0] >= ' '
    ensures ParseStringBody(s) == PrependChar(s[0], ParseStringBody(s[1..]))
  {
  }

  /** The escape `JSON.stringify` writes for a control character is read back as that character. */
  lemma UnicodeEscapeParses(c: char, rest: string)
    requires c < ' '
    ensures ParseEscape(['u', '0', '0', HexDigit(c as int / 16), HexDigit(c as int % 16)] + rest) == Some((c, rest))
  {
    var hi, lo := c as int / 16, c as int % 16;
    var t := ['u', '0', '0', HexDigit(hi), HexDigit(lo)] + rest;
    assert t[1..5] == ['0', '0', HexDigit(hi), HexDigit(lo)];
    assert Hex4(t[1..5]) == c as int;
    assert t[5..] == rest;
  }

  lemma {:induction false} EscapeCharParses(c: char, rest: string)
    ensures ParseStringBody(EscapeChar(c) + rest) == PrependChar(c, ParseStringBody(rest))
  {
    var e := EscapeChar(c);
    var s := e + rest;
    if c == '"' || c == '\\' || c == '\U{0008}' || c == '\U{000C}' || c == '\n' || c == '\r' || c == '\t' {
      assert |e| == 2 && e[0] == '\\';
      assert s[1..] == [e[1]] + rest;
      assert ParseEscape(s[1..]) == Some((c, rest)) by {
        assert s[1..][1..] == rest;
      }
      StringBodyEscapeStep(s, c, rest);
    } else if c < ' ' {
      var hi, lo := c as int / 16, c as int % 16;
      assert e == ['\\'] + ['u', '0', '0', HexDigit(hi), HexDigit(lo)];
      assert s[1..] == ['u', '0', '0', HexDigit(hi), HexDigit(lo)] + rest;
      UnicodeEscapeParses(c, rest);
      StringBodyEscapeStep(s, c, rest);
    } else {
      assert e == [c];
      assert s[1..] == rest;
      StringBodyPlainStep(s);
    }
  }

  lemma {:induction false} EscapeParses(str: string, rest: string)
    ensures ParseStringBody(Escape(str) + "\"" + rest) == Some((str, rest))
  {
    if str == [] {
      assert Escape(str) + "\"" + rest == "\"" + rest;
      assert ("\"" + rest)[1..] == rest;
    } else {
      var tail := Escape(str[1..]) + "\"" + rest;
      assert Escape(str) + "\"" + rest == EscapeChar(str[0]) + tail;
      EscapeCharParses(str[0], tail);
      EscapeParses(str[1..], rest);
      assert [str[0]] + str[1..] == str;
    }
  }

  /** Serializing a value and parsing it back gives the value and leaves what followed untouched. */
  lemma {:induction false} ParseValueSerialize(v: Json, rest: string)
    requires WellFormed(v) && Delimited(rest)
    ensures ParseValue(Serialize(v) + rest) == Some((v, rest))
    decreases v, 1
  {
    match v
    case JNull => ParseLiteralSerialize(v, rest);
    case JBool(_) => ParseLiteralSerialize(v, rest);
    case JNumber(t) => ParseNumberSerialize(t, rest);
    case JString(str) => ParseStringSerialize(str, rest);
    case JArray(items) => ParseArraySerialize(items, rest);
    case JObject(ms) => ParseObjectSerialize(ms, rest);
  }

  lemma ParseLiteralSerialize(v: Json, rest: string)
    requires v.JNull? || v.JBool?
    ensures ParseValue(Serialize(v) + rest) == Some((v, rest))
  {
    var s := Serialize(v) + rest;
    if v.JNull? {
      assert s[..4] == "null" && s[4..] == rest;
    } else if v.b {
      assert s[..4] == "true" && s[4..] == rest;
    } else {
      assert s[..5] == "false" && s[5..] == rest;
    }
  }

  lemma ParseStringSerialize(str: string, rest: string)
    ensures ParseValue(Serialize(JString(str)) + rest) == Some((JString(str), rest))
  {
    var s := Serialize(JString(str)) + rest;
    assert s[1..] == Escape(str) + "\"" + rest;
    EscapeParses(str, rest);
  }

  lemma ParseNumberSerialize(t: string, rest: string)
    requires ValidNumber(t) && Delimited(rest)
    ensures ParseValue(t + rest) == Some((JNumber(t), rest))
  {
    var s := t + rest;
    ValidNumberStart(t);
    ValidNumberChars(t);
    NumberRunOfLexeme(t, rest);
    assert s[..|t|] == t && s[|t|..] == rest;
  }

  lemma {:induction false} ParseArraySerialize(items: seq<Json>, rest: string)
    requires forall i :: 0 <= i < |items| ==> WellFormed(items[i])
    ensures ParseValue(Serialize(JArray(items)) + rest) == Some((JArray(items), rest))
    decreases items, 2
  {
    var body := SerializeItems(items) + "]" + rest;
    assert Serialize(JArray(items)) + rest == "[" + body;
    if items == [] {
      assert body == "]" + rest;
      ValueOfEmptyArray(rest);
    } else {
      SerializeItemsStart(items);
      ParseItemsSerialize(items, rest);
      ValueOfArray(body, items, rest);
    }
  }

  lemma ValueOfEmptyArray(rest: string)
    ensures ParseValue("[" + ("]" + rest)) == Some((JArray([]), rest))
  {
    var s := "[" + ("]" + rest);
    assert s[1..] == "]" + rest && s[1..][1..] == rest;
  }

  /** `[` followed by the items' text reads as the array. */
  lemma ValueOfArray(body: string, items: seq<Json>, rest: string)
    requires body != [] && body[0] != ']' && !IsJsonSpace(body[0]) && ParseItems(body) == Some((items, rest))
    ensures ParseValue("[" + body) == Some((JArray(items), rest))
  {
    assert ("[" + body)[1..] == body;
  }

  lemma {:induction false} ParseObjectSerialize(ms: seq<Member>, rest: string)
    requires forall i :: 0 <= i < |ms| ==> WellFormed(ms[i].value)
    ensures ParseValue(Serialize(JObject(ms)) + rest) == Some((JObject(ms), rest))
    decreases ms, 2
  {
    var body := SerializeMembers(ms) + "}" + rest;
    assert Serialize(JObject(ms)) + rest == "{" + body;
    if ms == [] {
      assert body == "}" + rest;
      ValueOfEmptyObject(rest);
    } else {
      SerializeMembersStart(ms);
      ParseMembersSerialize(ms, rest);
      ValueOfObject(body, ms, rest);
    }
  }

  lemma ValueOfEmptyObject(rest: string)
    ensures ParseValue("{" + ("}" + rest)) == Some((JObject([]), rest))
  {
    var s := "{" + ("}" + rest);
    assert s[1..] == "}" + rest && s[1..][1..] == rest;
  }

  /** `{` followed by the members' text reads as the object. */
  lemma ValueOfObject(body: string, ms: seq<Member>, rest: string)
    requires body != [] && body[0] == '"' && ParseMembers(body) == Some((ms, rest))
    ensures ParseValue("{" + body) == Some((JObject(ms), rest))
  {
    assert ("{" + body)[1..] == body;
  }

  lemma {:induction false} SerializeItemsStart(items: seq<Json>)
    requires items != [] && WellFormed(items[0])
    ensures SerializeItems(items) != [] && !IsJsonSpace(SerializeItems(items)[0]) && SerializeItems(items)[0] != ']'
  {
    SerializeStart(items[0]);
    if |items| > 1 {
      assert SerializeItems(items) == Serialize(items[0]) + ("," + SerializeItems(items[1..]));
    }
    assert SerializeItems(items)[0] == Serialize(items[0])[0];
  }

  /** How `ParseItems` continues once the first element has been read and no white space follows it. */
  // One unfolding of `ParseItems` and `ParseMembers` each, stated on abstract
  // strings so that the round-trip proofs below need not unfold the parser.

  lemma ParseItemsLast(s: string, v: Json, rest: string)
    requires ParseValue(s) == Some((v, "]" + rest))
    ensures ParseItems(s) == Some(([v], rest))
  {
    assert ("]" + rest)[1..] == rest;
  }

  lemma ParseItemsNext(s: string, v: Json, tail: string, more: seq<Json>, rest: string)
    requires ParseValue(s) == Some((v, "," + tail))
    requires tail != [] && !IsJsonSpace(tail[0]) && ParseItems(tail) == Some((more, rest))
    ensures ParseItems(s) == Some(([v] + more, rest))
  {
    assert ("," + tail)[1..] == tail;
  }

  lemma ParseMembersLast(s: string, m: Member, rest: string)
    requires ParseMember(s) == Some((m, "}" + rest))
    ensures ParseMembers(s) == Some(([m], rest))
  {
    assert ("}" + rest)[1..] == rest;
  }

  lemma ParseMembersNext(s: string, m: Member, tail: string, more: seq<Member>, rest: string)
    requires ParseMember(s) == Some((m, "," + tail))
    requires tail != [] && tail[0] == '"' && ParseMembers(tail) == Some((more, rest))
    ensures ParseMembers(s) == Some(([m] + more, rest))
  {
    assert ("," + tail)[1..] == tail;
  }

  /** How `ParseMember` reads a member whose key has been recognized. */
  lemma ParseMemberStep(s: string, key: string, r1: string, v: Json, r3: string)
    requires s != [] && s[0] == '"' && ParseStringBody(s[1..]) == Some((key, r1))
    requires r1 != [] && r1[0] == ':' && ParseValue(SkipWs(r1[1..])) == Some((v, r3))
    ensures ParseMember(s) == Some((Member(key, v), r3))
  {
  }

  lemma SerializeItemsSplit(items: seq<Json>, after: string)
    requires |items| > 1
    ensures SerializeItems(items) + after == Serialize(items[0]) + ("," + (SerializeItems(items[1..]) + after))
  {
  }

  lemma {:induction false} ParseItemsSerialize(items: seq<Json>, rest: string)
    requires items != [] && forall i :: 0 <= i < |items| ==> WellFormed(items[i])
    ensures ParseItems(SerializeItems(items) + "]" + rest) == Some((items, rest))
    decreases items, 1
  {
    if |items| == 1 {
      var s := SerializeItems(items) + ("]" + rest);
      assert SerializeItems(items) + "]" + rest == s;
      assert s == Serialize(items[0]) + ("]" + rest);
      ParseValueSerialize(items[0], "]" + rest);
      ParseItemsLast(s, items[0], rest);
      assert [items[0]] == items;
    } else {
      ParseItemsSerializeMore(items, rest);
    }
  }

  /** The step of `ParseItemsSerialize` for more than one item. */
  lemma {:induction false} ParseItemsSerializeMore(items: seq<Json>, rest: string)
    requires |items| > 1 && forall i :: 0 <= i < |items| ==> WellFormed(items[i])
    ensures ParseItems(SerializeItems(items) + "]" + rest) == Some((items, rest))
    decreases items, 0
  {
    var tail := SerializeItems(items[1..]) + ("]" + rest);
    ParseValueSerialize(items[0], "," + tail);
    ParseItemsSerialize(items[1..], rest);
    ItemsText(items, rest);
    ParseItemsNext(SerializeItems(items) + "]" + rest, items[0], tail, items[1..], rest);
    assert [items[0]] + items[1..] == items;
  }

  /** The text of several items: the first one, a comma, and the text of the others. */
  lemma ItemsText(items: seq<Json>, rest: string)
    requires |items| > 1 && WellFormed(items[1])
    ensures SerializeItems(items) + "]" + rest == Serialize(items[0]) + ("," + (SerializeItems(items[1..]) + ("]" + rest)))
    ensures SerializeItems(items[1..]) + "]" + rest == SerializeItems(items[1..]) + ("]" + rest)
    ensures SerializeItems(items[1..]) + ("]" + rest) != []
    ensures !IsJsonSpace((SerializeItems(items[1..]) + ("]" + rest))[0])
  {
    SerializeItemsSplit(items, "]" + rest);
    SerializeItemsStart(items[1..]);
  }

  /** A quoted string followed by anything is read back by the string-literal parser. */
  lemma QuoteParses(str: string, after: string)
    ensures (Quote(str) + after)[0] == '"'
    ensures ParseStringBody((Quote(str) + after)[1..]) == Some((str, after))
  {
    var s := Quote(str) + after;
    assert s[1..] == Escape(str) + "\"" + after;
    EscapeParses(str, after);
  }

  lemma {:induction false} ParseMemberSerialize(m: Member, rest: string)
    requires WellFormed(m.value) && Delimited(rest)
    ensures ParseMember(SerializeMember(m) + rest) == Some((m, rest))
    decreases m, 0
  {
    var value := Serialize(m.value) + rest;
    var afterKey := ":" + value;
    var s := SerializeMember(m) + rest;
    assert s == Quote(m.key) + afterKey;
    QuoteParses(m.key, afterKey);
    assert afterKey[1..] == value;
    assert SkipWs(value) == value by {
      SerializeStart(m.value);
    }
    ParseValueSerialize(m.value, rest);
    ParseMemberStep(s, m.key, afterKey, m.value, rest);
  }

  lemma {:induction false} SerializeMembersStart(ms: seq<Member>)
    requires ms != []
    ensures SerializeMembers(ms) != [] && SerializeMembers(ms)[0] == '"'
  {
    assert SerializeMember(ms[0])[0] == '"';
    if |ms| > 1 {
      assert SerializeMembers(ms) == SerializeMember(ms[0]) + ("," + SerializeMembers(ms[1..]));
    }
  }

  lemma SerializeMembersSplit(ms: seq<Member>, after: string)
    requires |ms| > 1
    ensures SerializeMembers(ms) + after == SerializeMember(ms[0]) + ("," + (SerializeMembers(ms[1..]) + after))
  {
  }

  lemma {:induction false} ParseMembersSerialize(ms: seq<Member>, rest: string)
    requires ms != [] && forall i :: 0 <= i < |ms| ==> WellFormed(ms[i].value)
    ensures ParseMembers(SerializeMembers(ms) + "}" + rest) == Some((ms, rest))
    decreases ms, 1
  {
    var s := SerializeMembers(ms) + ("}" + rest);
    assert SerializeMembers(ms) + "}" + rest == s;
    if |ms| == 1 {
      assert s == SerializeMember(ms[0]) + ("}" + rest);
      ParseMemberSerialize(ms[0], "}" + rest);
      ParseMembersLast(s, ms[0], rest);
      assert [ms[0]] == ms;
    } else {
      ParseMembersSerializeMore(ms, rest);
    }
  }

  /** The step of `ParseMembersSerialize` for more than one member. */
  lemma {:induction false} ParseMembersSerializeMore(ms: seq<Member>, rest: string)
    requires |ms| > 1 && forall i :: 0 <= i < |ms| ==> WellFormed(ms[i].value)
    ensures ParseMembers(SerializeMembers(ms) + "}" + rest) == Some((ms, rest))
    decreases ms, 0
  {
    var tail := SerializeMembers(ms[1..]) + ("}" + rest);
    ParseMemberSerialize(ms[0], "," + tail);
    ParseMembersSerialize(ms[1..], rest);
    MembersText(ms, rest);
    ParseMembersNext(SerializeMembers(ms) + "}" + rest, ms[0], tail, ms[1..], rest);
    assert [ms[0]] + ms[1..] == ms;
  }

  /** The text of several members: the first one, a comma, and the text of the others. */
  lemma MembersText(ms: seq<Member>, rest: string)
    requires |ms| > 1
    ensures SerializeMembers(ms) + "}" + rest == SerializeMember(ms[0]) + ("," + (SerializeMembers(ms[1..]) + ("}" + rest)))
    ensures SerializeMembers(ms[1..]) + "}" + rest == SerializeMembers(ms[1..]) + ("}" + rest)
    ensures SerializeMembers(ms[1..]) + ("}" + rest) != [] && (SerializeMembers(ms[1..]) + ("}" + rest))[0] == '"'
  {
    SerializeMembersSplit(ms, "}" + rest);
    SerializeMembersStart(ms[1..]);
  }

  /** `JSON.parse(JSON.stringify(v))` gives back `v`. */
  lemma ParseSerialize(v: Json)
    requires WellFormed(v)
    ensures Parse(Serialize(v)) == Some(v)
  {
    SerializeStart(v);
    ParseValueSerialize(v, []);
    assert Serialize(v) + [] == Serialize(v);
  }
}
