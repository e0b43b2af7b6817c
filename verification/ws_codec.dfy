/** The clipboard channel's wire messages (`WsMessage` in src/routes/ws.rs) and their JSON
    form. The enum is serialised with serde's adjacent tagging, `tag = "type"` and
    `content = "data"`: `{"type":"Clipboard","data":"..."}` for the one variant that carries a
    value and `{"type":"Connect"}` for the others. Strings are escaped as JSON requires
    (section 7 of RFC 8259), the way serde_json writes them. */
module WsCodec {
  import opened Wrappers

  datatype WsMessage = Connect | Clipboard(text: string) | Sync | Heartbeat

  /** The variant name written in the "type" field. */
  function Tag(m: WsMessage): string {
    match m
    case Connect => "Connect"
    case Clipboard(_) => "Clipboard"
    case Sync => "Sync"
    case Heartbeat => "Heartbeat"
  }

  // ---------------------------------------------------------------------------------------
  // Encoding

  /** Lower-case hexadecimal digit, as serde_json writes them in `\u00XX`. */
  function HexDigit(n: nat): (c: char)
    requires n < 16
    ensures HexValue(c) == Some(n)
  {
    if n < 10 then ('0' as int + n) as char else ('a' as int + n - 10) as char
  }

  /** One character of a JSON string body: the quote and the backslash are escaped, the
      control characters U+0000..U+001F get a short escape where JSON has one and `\u00XX`
      otherwise; every other character (U+007F and all non-ASCII included) is written as is. */
  function EscapeChar(c: char): string {
    if c == '"' then ['\\', '"']
    else if c == '\\' then ['\\', '\\']
    else if c as int == 0x08 then ['\\', 'b']
    else if c as int == 0x0C then ['\\', 'f']
    else if c == '\n' then ['\\', 'n']
    else if c == '\r' then ['\\', 'r']
    else if c == '\t' then ['\\', 't']
    else if c as int < 0x20 then ['\\', 'u', '0', '0', HexDigit(c as int / 16), HexDigit(c as int % 16)]
    else [c]
  }

  /** The body of a JSON string holding `s`. */
  function Escape(s: string): string {
    if s == [] then [] else EscapeChar(s[0]) + Escape(s[1..])
  }

  function Quote(s: string): string {
    "\"" + Escape(s) + "\""
  }

  /** `"key":"value"` */
  function FieldText(key: string, value: string): string {
    Quote(key) + ":" + Quote(value)
  }

  /** `serde_json::to_string(&m)`; it cannot fail for this type. */
  function Encode(m: WsMessage): string {
    match m
    case Clipboard(t) => "{" + FieldText("type", "Clipboard") + "," + FieldText("data", t) + "}"
    case _ => "{" + FieldText("type", Tag(m)) + "}"
  }

  // ---------------------------------------------------------------------------------------
  // Decoding: a JSON object whose member values are strings or null

  datatype JsonValue = JString(s: string) | JNull

  datatype Member = Member(key: string, value: JsonValue)

  predicate IsJsonWhitespace(c: char) {
    c == ' ' || c == '\t' || c == '\n' || c == '\r'
  }

  function SkipWhitespace(s: string): (r: string)
    ensures |r| <= |s|
    ensures r == [] || !IsJsonWhitespace(r[0])
  {
    if s != [] && IsJsonWhitespace(s[0]) then SkipWhitespace(s[1..]) else s
  }

  function HexValue(c: char): (r: Option<nat>)
    ensures r.Some? ==> r.value < 16
  {
    if '0' <= c <= '9' then Some(c as int - '0' as int)
    else if 'a' <= c <= 'f' then Some(c as int - 'a' as int + 10)
    else if 'A' <= c <= 'F' then Some(c as int - 'A' as int + 10)
    else None
  }

  /** Four hexadecimal digits, as they follow `\u`. */
  function Hex4(s: string): (r: Option<nat>)
    requires |s| == 4
    ensures r.Some? ==> r.value < 0x10000
  {
    match (HexValue(s[0]), HexValue(s[1]), HexValue(s[2]), HexValue(s[3]))
    case (Some(a), Some(b), Some(c), Some(d)) => Some(((a * 16 + b) * 16 + c) * 16 + d)
    case _ => None
  }

  /** Put a decoded character in front of what the rest of the string body decodes to. */
  function Cons(c: char, r: Option<(string, string)>): (r': Option<(string, string)>)
    ensures r'.Some? <==> r.Some?
    ensures r.Some? ==> r'.value == ([c] + r.value.0, r.value.1)
  {
    match r
    case None => None
    case Some((t, rest)) => Some(([c] + t, rest))
  }

  /** One character of a string body that is not its closing quote: the character and how
      many input characters stand for it. As serde_json does for a Rust `String`, a raw
      control character, an unknown escape or a lone surrogate escape is an error; a
      surrogate pair of `\u` escapes makes one character. */
  function StringChar(s: string): (r: Option<(char, nat)>)
    requires s != []
    ensures r.Some? ==> 1 <= r.value.1 <= |s|
  {
    if s[0] == '\\' then
      if |s| < 2 then None
      else
        var e := s[1];
        if e == '"' || e == '\\' || e == '/' then Some((e, 2))
        else if e == 'b' then Some((0x08 as char, 2))
        else if e == 'f' then Some((0x0C as char, 2))
        else if e == 'n' then Some(('\n', 2))
        else if e == 'r' then Some(('\r', 2))
        else if e == 't' then Some(('\t', 2))
        else if e == 'u' && |s| >= 6 then
          match Hex4(s[2..6])
          case None => None
          case Some(v) =>
            if 0xD800 <= v < 0xDC00 then
              if |s| < 12 || s[6] != '\\' || s[7] != 'u' then None
              else
                match Hex4(s[8..12])
                case None => None
                case Some(w) =>
                  if 0xDC00 <= w < 0xE000
                  then Some(((0x10000 + (v - 0xD800) * 0x400 + (w - 0xDC00)) as char, 12))
                  else None
            else if 0xDC00 <= v < 0xE000 then None
            else Some((v as char, 6))
        else None
    else if s[0] as int < 0x20 then None
    else Some((s[0], 1))
  }

  /** The body of a JSON string, just after its opening quote: the decoded text and what
      follows the closing quote. A missing closing quote is an error. */
  function ParseStringBody(s: string): (r: Option<(string, string)>)
    ensures r.Some? ==> |r.value.1| < |s|
    decreases |s|
  {
    if s == [] then None
    else if s[0] == '"' then Some(([], s[1..]))
    else
      match StringChar(s)
      case None => None
      case Some((c, n)) => Cons(c, ParseStringBody(s[n..]))
  }

  function ParseValue(s: string): (r: Option<(JsonValue, string)>)
    ensures r.Some? ==> |r.value.1| < |s|
  {
    if |s| >= 1 && s[0] == '"' then
      match ParseStringBody(s[1..])
      case None => None
      case Some((t, rest)) => Some((JString(t), rest))
    else if |s| >= 4 && s[..4] == "null" then Some((JNull, s[4..]))
    else None
  }

  /** `"key" : value`, starting at the key's opening quote. */
  function ParseMember(s: string): (r: Option<(Member, string)>)
    ensures r.Some? ==> |r.value.1| < |s|
  {
    if s == [] || s[0] != '"' then None
    else
      match ParseStringBody(s[1..])
      case None => None
      case Some((key, afterKey)) =>
        var t := SkipWhitespace(afterKey);
        if t == [] || t[0] != ':' then None
        else
          match ParseValue(SkipWhitespace(t[1..]))
          case None => None
          case Some((v, rest)) => Some((Member(key, v), rest))
  }

  /** What follows a member: the closing brace, or a comma and further members. */
  function ParseMoreMembers(s: string): (r: Option<(seq<Member>, string)>)
    decreases |s|
  {
    var t := SkipWhitespace(s);
    if t == [] then None
    else if t[0] == '}' then Some(([], t[1..]))
    else if t[0] == ',' then
      match ParseMember(SkipWhitespace(t[1..]))
      case None => None
      case Some((m, rest)) =>
        match ParseMoreMembers(rest)
        case None => None
        case Some((ms, rest')) => Some(([m] + ms, rest'))
    else None
  }

  /** A whole frame: one JSON object, with nothing but whitespace around it. */
  function ParseObject(s: string): Option<seq<Member>> {
    var t := SkipWhitespace(s);
    if t == [] || t[0] != '{' then None
    else
      var u := SkipWhitespace(t[1..]);
      var body: Option<(seq<Member>, string)> :=
        if u != [] && u[0] == '}' then Some(([], u[1..]))
        else
          match ParseMember(u)
          case None => None
          case Some((m, rest)) =>
            match ParseMoreMembers(rest)
            case None => None
            case Some((ms, rest')) => Some(([m] + ms, rest'));
      match body
      case None => None
      case Some((ms, rest)) => if SkipWhitespace(rest) == [] then Some(ms) else None
  }

  /** The values given for `key`, in order. */
  function ValuesOf(ms: seq<Member>, key: string): (vs: seq<JsonValue>)
    ensures |vs| <= |ms|
  {
    if ms == [] then []
    else (if ms[0].key == key then [ms[0].value] else []) + ValuesOf(ms[1..], key)
  }

  /** serde's reading of an adjacently tagged enum from the object's members: exactly one
      "type" naming a variant, at most one "data" (a repeated field is an error), a string
      "data" for `Clipboard`, and for the unit variants no "data" or a null one. Other keys
      are ignored. */
  function Interpret(ms: seq<Member>): Option<WsMessage> {
    var tags := ValuesOf(ms, "type");
    var data := ValuesOf(ms, "data");
    if |tags| != 1 || |data| > 1 || !tags[0].JString? then None
    else
      var tag := tags[0].s;
      if tag == "Clipboard" then
        if |data| == 1 && data[0].JString? then Some(Clipboard(data[0].s)) else None
      else if |data| == 1 && data[0] != JNull then None
      else if tag == "Connect" then Some(Connect)
      else if tag == "Sync" then Some(Sync)
      else if tag == "Heartbeat" then Some(Heartbeat)
      else None
  }

  /** `serde_json::from_str::<WsMessage>(text)` for a frame holding one JSON object, with
      `None` for every error. The two-element array form serde also reads for an adjacently
      tagged enum (`["Sync",null]`) is not accepted here. */
  function Decode(text: string): Option<WsMessage> {
    match ParseObject(text)
    case None => None
    case Some(ms) => Interpret(ms)
  }

  // ---------------------------------------------------------------------------------------
  // Properties

  /** Decoding an escaped character gives the character back. */
  lemma ParseEscapedChar(c: char, rest: string)
    ensures StringChar(EscapeChar(c) + rest) == Some((c, |EscapeChar(c)|))
  {
    var s := EscapeChar(c) + rest;
    if c == '"' || c == '\\' || c as int == 0x08 || c as int == 0x0C || c == '\n' || c == '\r' || c == '\t' {
    } else if c as int < 0x20 {
      var hi, lo := c as int / 16, c as int % 16;
      assert s[2..6] == ['0', '0', HexDigit(hi), HexDigit(lo)];
      assert Hex4(s[2..6]) == Some(c as int);
    } else {
    }
  }

  /** The string body round trip: an escaped text followed by a closing quote reads back as
      the text, and parsing resumes right after the quote. */
  lemma {:induction false} ParseEscaped(t: string, rest: string)
    ensures ParseStringBody(Escape(t) + "\"" + rest) == Some((t, rest))
  {
    if t == [] {
      assert Escape(t) + "\"" + rest == "\"" + rest;
      assert ("\"" + rest)[1..] == rest;
    } else {
      var e := EscapeChar(t[0]);
      var more := Escape(t[1..]) + "\"" + rest;
      ParseEscaped(t[1..], rest);
      assert Escape(t) + "\"" + rest == e + more;
      ParseEscapedChar(t[0], more);
      assert (e + more)[|e|..] == more;
      ParseStep(e + more, t[0], |e|);
      assert [t[0]] + t[1..] == t;
    }
  }

  /** Reading a string body one character at a time. */
  lemma ParseStep(s: string, c: char, n: nat)
    requires s != [] && s[0] != '"' && StringChar(s) == Some((c, n))
    ensures ParseStringBody(s) == Cons(c, ParseStringBody(s[n..]))
  {
  }

  /** A quoted string is read back as that string value. */
  lemma ParseQuoted(t: string, rest: string)
    ensures ParseValue(Quote(t) + rest) == Some((JString(t), rest))
  {
    var s := Quote(t) + rest;
    assert s[0] == '"';
    assert s[1..] == Escape(t) + "\"" + rest;
    ParseEscaped(t, rest);
  }

  lemma ParseMemberParts(s: string, key: string, afterKey: string, v: JsonValue, rest: string)
    requires s != [] && s[0] == '"' && ParseStringBody(s[1..]) == Some((key, afterKey))
    requires afterKey != [] && afterKey[0] == ':'
    requires ParseValue(SkipWhitespace(afterKey[1..])) == Some((v, rest))
    ensures ParseMember(s) == Some((Member(key, v), rest))
  {
  }

  lemma ParseFieldKey(key: string, afterKey: string)
    ensures ParseStringBody((Quote(key) + afterKey)[1..]) == Some((key, afterKey))
  {
    assert (Quote(key) + afterKey)[1..] == Escape(key) + "\"" + afterKey;
    ParseEscaped(key, afterKey);
  }

  lemma ParseFieldValue(value: string, rest: string)
    ensures ParseValue(SkipWhitespace((":" + Quote(value) + rest)[1..])) == Some((JString(value), rest))
  {
    var v := Quote(value) + rest;
    assert (":" + Quote(value) + rest)[1..] == v;
    assert SkipWhitespace(v) == v;
    ParseQuoted(value, rest);
  }

  lemma ParseField(key: string, value: string, rest: string)
    ensures ParseMember(FieldText(key, value) + rest) == Some((Member(key, JString(value)), rest))
  {
    var afterKey := ":" + Quote(value) + rest;
    var s := Quote(key) + afterKey;
    assert FieldText(key, value) + rest == s;
    ParseFieldKey(key, afterKey);
    ParseFieldValue(value, rest);
    ParseMemberParts(s, key, afterKey, JString(value), rest);
  }

  /** The escaped text is a valid JSON string body: it holds no raw control character and
      no unescaped quote, so the closing quote that follows it ends the string. */
  lemma {:induction false} EscapeIsStringBody(t: string)
    ensures forall i :: 0 <= i < |Escape(t)| ==> Escape(t)[i] as int >= 0x20
    ensures forall i :: 0 <= i < |Escape(t)| && Escape(t)[i] == '"' ==> i > 0 && Escape(t)[i - 1] == '\\'
  {
    if t != [] {
      EscapeIsStringBody(t[1..]);
      var e := EscapeChar(t[0]);
      assert Escape(t) == e + Escape(t[1..]);
      forall i | 0 <= i < |Escape(t)| && Escape(t)[i] == '"'
        ensures i > 0 && Escape(t)[i - 1] == '\\'
      {
        if i >= |e| {
          assert Escape(t)[i] == Escape(t[1..])[i - |e|];
        }
      }
    }
  }

  /** Escaping leaves text without quotes, backslashes and control characters as it is. */
  lemma {:induction false} EscapePlain(t: string)
    requires forall i :: 0 <= i < |t| ==> t[i] != '"' && t[i] != '\\' && t[i] as int >= 0x20
    ensures Escape(t) == t
  {
    if t != [] {
      EscapePlain(t[1..]);
      assert [t[0]] + t[1..] == t;
    }
  }

  /** An object whose first member starts right after the brace. */
  lemma ParseObjectParts(s: string, m: Member, rest: string, ms: seq<Member>)
    requires |s| >= 2 && s[0] == '{' && s[1] == '"'
    requires ParseMember(s[1..]) == Some((m, rest))
    requires ParseMoreMembers(rest) == Some((ms, []))
    ensures ParseObject(s) == Some([m] + ms)
  {
    assert SkipWhitespace(s) == s;
    assert SkipWhitespace(s[1..]) == s[1..];
  }

  lemma ParseClosingBrace()
    ensures ParseMoreMembers("}") == Some(([], []))
  {
    assert SkipWhitespace("}") == "}";
    assert "}"[1..] == [];
  }

  /** A comma, a member that starts right after it, and the members after that. */
  lemma ParseMoreParts(s: string, m: Member, rest: string, ms: seq<Member>, rest': string)
    requires |s| >= 2 && s[0] == ',' && s[1] == '"'
    requires ParseMember(s[1..]) == Some((m, rest))
    requires ParseMoreMembers(rest) == Some((ms, rest'))
    ensures ParseMoreMembers(s) == Some(([m] + ms, rest'))
  {
    assert SkipWhitespace(s) == s;
    assert SkipWhitespace(s[1..]) == s[1..];
  }

  lemma ParseLastField(key: string, value: string)
    ensures ParseMoreMembers("," + FieldText(key, value) + "}") == Some(([Member(key, JString(value))], []))
  {
    var s := "," + FieldText(key, value) + "}";
    assert s[1..] == FieldText(key, value) + "}";
    ParseField(key, value, "}");
    ParseClosingBrace();
    ParseMoreParts(s, Member(key, JString(value)), "}", [], []);
    assert [Member(key, JString(value))] + [] == [Member(key, JString(value))];
  }

  /** An object with one string member, as the encoder writes it. */
  lemma ParseOneField(k: string, v: string)
    ensures ParseObject("{" + FieldText(k, v) + "}") == Some([Member(k, JString(v))])
  {
    var s := "{" + FieldText(k, v) + "}";
    assert s[1..] == FieldText(k, v) + "}";
    ParseField(k, v, "}");
    ParseClosingBrace();
    ParseObjectParts(s, Member(k, JString(v)), "}", []);
    assert [Member(k, JString(v))] + [] == [Member(k, JString(v))];
  }

  /** An object that starts with a member right after its brace. */
  lemma ParseObjectAfterBrace(body: string, m: Member, rest: string, ms: seq<Member>)
    requires body != [] && body[0] == '"'
    requires ParseMember(body) == Some((m, rest))
    requires ParseMoreMembers(rest) == Some((ms, []))
    ensures ParseObject("{" + body) == Some([m] + ms)
  {
    var s := "{" + body;
    assert s[1..] == body;
    ParseObjectParts(s, m, rest, ms);
  }

  /** Two members with a comma between them make an object. */
  lemma ParseTwoMembers(f1: string, f2: string, m1: Member, m2: Member)
    requires f1 != [] && f1[0] == '"'
    requires ParseMember(f1 + ("," + f2 + "}")) == Some((m1, "," + f2 + "}"))
    requires ParseMoreMembers("," + f2 + "}") == Some(([m2], []))
    ensures ParseObject("{" + f1 + "," + f2 + "}") == Some([m1, m2])
  {
    var tail := "," + f2 + "}";
    Regroup(f1, f2);
    ParseObjectAfterBrace(f1 + tail, m1, tail, [m2]);
    assert [m1] + [m2] == [m1, m2];
  }

  lemma Regroup(f1: string, f2: string)
    ensures "{" + f1 + "," + f2 + "}" == "{" + (f1 + ("," + f2 + "}"))
  {
  }

  lemma FieldTextOpens(k: string, v: string)
    ensures FieldText(k, v) != [] && FieldText(k, v)[0] == '"'
  {
  }

  /** An object with two string members, as the encoder writes it. */
  lemma ParseTwoFields(k1: string, v1: string, k2: string, v2: string)
    ensures ParseObject("{" + FieldText(k1, v1) + "," + FieldText(k2, v2) + "}")
         == Some([Member(k1, JString(v1)), Member(k2, JString(v2))])
  {
    FieldTextOpens(k1, v1);
    ParseField(k1, v1, "," + FieldText(k2, v2) + "}");
    ParseLastField(k2, v2);
    ParseTwoMembers(FieldText(k1, v1), FieldText(k2, v2), Member(k1, JString(v1)), Member(k2, JString(v2)));
  }

  lemma InterpretClipboard(t: string)
    ensures Interpret([Member("type", JString("Clipboard")), Member("data", JString(t))]) == Some(Clipboard(t))
  {
    var ms := [Member("type", JString("Clipboard")), Member("data", JString(t))];
    assert ValuesOf(ms, "type") == [JString("Clipboard")];
    assert ValuesOf(ms, "data") == [JString(t)];
  }

  lemma DecodeEncodeClipboard(t: string)
    ensures Decode(Encode(Clipboard(t))) == Some(Clipboard(t))
  {
    ParseTwoFields("type", "Clipboard", "data", t);
    InterpretClipboard(t);
  }

  lemma InterpretUnit(m: WsMessage)
    requires !m.Clipboard?
    ensures Interpret([Member("type", JString(Tag(m)))]) == Some(m)
  {
    var ms := [Member("type", JString(Tag(m)))];
    assert ValuesOf(ms, "type") == [JString(Tag(m))];
    assert ValuesOf(ms, "data") == [];
  }

  lemma DecodeEncodeUnit(m: WsMessage)
    requires !m.Clipboard?
    ensures Decode(Encode(m)) == Some(m)
  {
    assert Encode(m) == "{" + FieldText("type", Tag(m)) + "}";
    ParseOneField("type", Tag(m));
    InterpretUnit(m);
  }

  /** decode(encode(m)) == m for every message. */
  lemma DecodeEncode(m: WsMessage)
    ensures Decode(Encode(m)) == Some(m)
  {
    if m.Clipboard? {
      DecodeEncodeClipboard(m.text);
    } else {
      DecodeEncodeUnit(m);
    }
  }

  /** Different messages are written differently. */
  lemma EncodeInjective(m: WsMessage, n: WsMessage)
    requires Encode(m) == Encode(n)
    ensures m == n
  {
    DecodeEncode(m);
    DecodeEncode(n);
  }
}
