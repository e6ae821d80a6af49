/** The JSON string escaper of src/json_utils.c, and a reference JSON grammar to judge it by:
    a value type, a compact printer and a parser for RFC 8259 (fractions and exponents excepted:
    no renderer here prints one). */
module Json {
  import opened Text

  // ----- the escaper -----

  function HexDigit(d: nat): char
    requires d < 16
  {
    if d < 10 then ('0' as int + d) as char else ('a' as int + d - 10) as char
  }

  function EscapeChar(c: char): (r: string)
    ensures r != ""
  {
    if c == '\\' then "\\\\"
    else if c == '"' then "\\\""
    else if c == 8 as char then "\\b"
    else if c == 12 as char then "\\f"
    else if c == '\n' then "\\n"
    else if c == '\r' then "\\r"
    else if c == '\t' then "\\t"
    else if c < ' ' then "\\u00" + [HexDigit(c as int / 16), HexDigit(c as int % 16)]
    else [c]
  }

  function Escape(s: string): string {
    if s == "" then "" else EscapeChar(s[0]) + Escape(s[1..])
  }

  lemma {:induction false} EscapeAppend(a: string, b: string)
    ensures Escape(a + b) == Escape(a) + Escape(b)
  {
    hide EscapeChar;
    if a == "" {
      assert a + b == b;
    } else {
      EscapeAppend(a[1..], b);
      assert (a + b)[1..] == a[1..] + b;
      assert (a + b)[0] == a[0];
      Regroup(EscapeChar(a[0]), Escape(a[1..]), Escape(b));
    }
  }

  lemma EscapeSnoc(s: string, i: nat)
    requires i < |s|
    ensures Escape(s[..i + 1]) == Escape(s[..i]) + EscapeChar(s[i])
  {
    EscapeAppend(s[..i], [s[i]]);
    assert s[..i + 1] == s[..i] + [s[i]];
    assert Escape([s[i]]) == EscapeChar(s[i]);
  }

  /** A character the escaper passes through. */
  predicate Plain(c: char) {
    c >= ' ' && c != '"' && c != '\\'
  }

  predicate AllPlain(s: string) {
    forall i :: 0 <= i < |s| ==> Plain(s[i])
  }

  /** Escaping leaves a text alone exactly when it holds only plain characters;
      otherwise the text gets longer. */
  lemma {:induction false} EscapeIdentity(s: string)
    ensures AllPlain(s) <==> Escape(s) == s
    ensures AllPlain(s) <==> |Escape(s)| == |s|
    ensures |Escape(s)| >= |s|
  {
    if s != "" {
      EscapeIdentity(s[1..]);
      assert s == [s[0]] + s[1..];
    }
  }

  /** Every quote in an escaped text has a backslash before it, inside that text. */
  lemma {:induction false} EscapedQuotes(s: string, j: nat)
    requires j < |Escape(s)| && Escape(s)[j] == '"'
    ensures j > 0 && Escape(s)[j - 1] == '\\'
  {
    var k := |EscapeChar(s[0])|;
    if j >= k {
      EscapedQuotes(s[1..], j - k);
    }
  }

  lemma {:induction false} QuoteSurvives(s: string)
    ensures '"' in Escape(s) <==> '"' in s
  {
    if s != "" {
      QuoteSurvives(s[1..]);
      assert s == [s[0]] + s[1..];
    }
  }

  // ----- the reference grammar -----

  datatype Json =
    | Null
    | Bool(b: bool)
    | Number(n: int)
    | String(s: string)
    | Array(items: seq<Json>)
    | Object(members: seq<Member>)

  datatype Member = Member(name: string, value: Json)

  predicate IsSpace(c: char) {
    c == ' ' || c == '\t' || c == '\n' || c == '\r'
  }

  function SkipSpace(s: string): (r: string)
    ensures |r| <= |s|
    ensures s != "" && !IsSpace(s[0]) ==> r == s
  {
    if s != "" && IsSpace(s[0]) then SkipSpace(s[1..]) else s
  }

  function HexValue(c: char): Option<nat> {
    if '0' <= c <= '9' then Some(c as int - '0' as int)
    else if 'a' <= c <= 'f' then Some(c as int - 'a' as int + 10)
    else if 'A' <= c <= 'F' then Some(c as int - 'A' as int + 10)
    else None
  }

  /** The four hexadecimal digits from position `i`. */
  function HexQuad(s: string, i: nat): (r: Option<nat>)
    requires i + 4 <= |s|
    ensures r.Some? ==> r.value < 0x1_0000
  {
    match (HexValue(s[i]), HexValue(s[i + 1]), HexValue(s[i + 2]), HexValue(s[i + 3]))
    case (Some(a), Some(b), Some(c), Some(d)) => Some(4096 * a + 256 * b + 16 * c + d)
    case _ => None
  }

  /** A high surrogate's character takes the low surrogate that has to follow as an escape. */
  function ParseSurrogates(high: nat, s: string): (r: Option<(char, string)>)
    requires 0xD800 <= high < 0xDC00
    ensures r.Some? ==> |r.value.1| < |s|
  {
    if |s| < 6 || s[0] != '\\' || s[1] != 'u' then None
    else
      match HexQuad(s, 2)
      case Some(low) =>
        if 0xDC00 <= low < 0xE000 then
          Some(((0x1_0000 + 0x400 * (high - 0xD800) + (low - 0xDC00)) as char, s[6..]))
        else None
      case None => None
  }

  /** The character after a backslash and the text that follows, per section 7 of RFC 8259. A lone
      surrogate, which stands for no character, is refused. */
  function ParseEscape(s: string): (r: Option<(char, string)>)
    ensures r.Some? ==> |r.value.1| < |s|
  {
    if s == "" then None
    else if s[0] == '"' || s[0] == '\\' || s[0] == '/' then Some((s[0], s[1..]))
    else if s[0] == 'b' then Some((8 as char, s[1..]))
    else if s[0] == 'f' then Some((12 as char, s[1..]))
    else if s[0] == 'n' then Some(('\n', s[1..]))
    else if s[0] == 'r' then Some(('\r', s[1..]))
    else if s[0] == 't' then Some(('\t', s[1..]))
    else if s[0] == 'u' && |s| >= 5 then
      match HexQuad(s, 1)
      case Some(code) =>
        if code < 0xD800 || 0xE000 <= code then Some((code as char, s[5..]))
        else if code < 0xDC00 then ParseSurrogates(code, s[5..])
        else None
      case None => None
    else None
  }

  /** The rest of a string literal whose opening quote has been read. */
  function ParseChars(s: string): (r: Option<(string, string)>)
    ensures r.Some? ==> |r.value.1| < |s|
    decreases |s|
  {
    if s == "" || s[0] < ' ' then None
    else if s[0] == '"' then Some(("", s[1..]))
    else if s[0] == '\\' then
      match ParseEscape(s[1..])
      case None => None
      case Some((c, rest)) =>
        match ParseChars(rest)
        case None => None
        case Some((text, rest')) => Some(([c] + text, rest'))
    else
      match ParseChars(s[1..])
      case None => None
      case Some((text, rest)) => Some(([s[0]] + text, rest))
  }

  /** An integer literal: no leading zero, no fraction and no exponent. */
  function ParseNumber(s: string): (r: Option<(Json, string)>)
    ensures r.Some? ==> |r.value.1| < |s|
  {
    if s != "" && s[0] == '-' then
      match ParseNat(s[1..])
      case None => None
      case Some((v, rest)) => Some((Number(0 - v), rest))
    else
      match ParseNat(s)
      case None => None
      case Some((v, rest)) => Some((Number(v), rest))
  }

  function ParseNat(s: string): (r: Option<(nat, string)>)
    ensures r.Some? ==> |r.value.1| < |s|
  {
    var n := DigitSpan(s);
    if n == 0 || (n > 1 && s[0] == '0') || !NumberEnds(s[n..]) then None
    else
      assert forall i :: 0 <= i < n ==> s[..n][i] == s[i];
      Some((DecimalValue(s[..n]), s[n..]))
  }

  predicate NumberEnds(rest: string) {
    rest == "" || !(IsDigit(rest[0]) || rest[0] == '.' || rest[0] == 'e' || rest[0] == 'E')
  }

  function ParseValue(input: string): (r: Option<(Json, string)>)
    ensures r.Some? ==> |r.value.1| < |input|
    decreases |input|, 2
  {
    var s := SkipSpace(input);
    if s == "" then None
    else if s[0] == '"' then
      match ParseChars(s[1..])
      case None => None
      case Some((text, rest)) => Some((String(text), rest))
    else if s[0] == '[' then ParseArray(s[1..])
    else if s[0] == '{' then ParseObject(s[1..])
    else if "true" <= s then Some((Bool(true), s[4..]))
    else if "false" <= s then Some((Bool(false), s[5..]))
    else if "null" <= s then Some((Null, s[4..]))
    else ParseNumber(s)
  }

  /** The rest of an array whose opening bracket has been read. */
  function ParseArray(s: string): (r: Option<(Json, string)>)
    ensures r.Some? ==> |r.value.1| < |s|
    decreases |s|, 4
  {
    var t := SkipSpace(s);
    if t != "" && t[0] == ']' then Some((Array([]), t[1..]))
    else
      match ParseItems(s)
      case None => None
      case Some((items, rest)) => Some((Array(items), rest))
  }

  /** The rest of an object whose opening brace has been read. */
  function ParseObject(s: string): (r: Option<(Json, string)>)
    ensures r.Some? ==> |r.value.1| < |s|
    decreases |s|, 4
  {
    var t := SkipSpace(s);
    if t != "" && t[0] == '}' then Some((Object([]), t[1..]))
    else
      match ParseMembers(s)
      case None => None
      case Some((members, rest)) => Some((Object(members), rest))
  }

  /** One or more values, up to and including the closing bracket. */
  function ParseItems(s: string): (r: Option<(seq<Json>, string)>)
    ensures r.Some? ==> |r.value.1| < |s|
    decreases |s|, 3
  {
    match ParseValue(s)
    case None => None
    case Some((item, after)) =>
      var t := SkipSpace(after);
      if t == "" then None
      else if t[0] == ']' then Some(([item], t[1..]))
      else if t[0] == ',' then
        match ParseItems(t[1..])
        case None => None
        case Some((items, rest)) => Some(([item] + items, rest))
      else None
  }

  /** One or more members, up to and including the closing brace. */
  function ParseMembers(input: string): (r: Option<(seq<Member>, string)>)
    ensures r.Some? ==> |r.value.1| < |input|
    decreases |input|, 3
  {
    match ParseMember(input)
    case None => None
    case Some((member, after)) =>
      var t := SkipSpace(after);
      if t == "" then None
      else if t[0] == '}' then Some(([member], t[1..]))
      else if t[0] == ',' then
        match ParseMembers(t[1..])
        case None => None
        case Some((members, rest)) => Some(([member] + members, rest))
      else None
  }

  function ParseMember(input: string): (r: Option<(Member, string)>)
    ensures r.Some? ==> |r.value.1| < |input|
    decreases |input|, 2
  {
    var s := SkipSpace(input);
    if s == "" || s[0] != '"' then None
    else
      match ParseChars(s[1..])
      case None => None
      case Some((name, after)) =>
        var t := SkipSpace(after);
        if t == "" || t[0] != ':' then None
        else
          match ParseValue(t[1..])
          case None => None
          case Some((value, rest)) => Some((Member(name, value), rest))
  }

  /** A whole document: one value and nothing but space after it. */
  function Parse(s: string): Option<Json> {
    match ParseValue(s)
    case Some((v, rest)) => if SkipSpace(rest) == "" then Some(v) else None
    case None => None
  }

  // ----- compact printing -----

  function Print(v: Json): string
    decreases v, 0
  {
    match v
    case Null => "null"
    case Bool(b) => if b then "true" else "false"
    case Number(n) => IntString(n)
    case String(s) => "\"" + Escape(s) + "\""
    case Array(items) => "[" + PrintItems(items) + "]"
    case Object(members) => "{" + PrintMembers(members) + "}"
  }

  function PrintItems(items: seq<Json>): string
    decreases items, 1
  {
    if items == [] then ""
    else if |items| == 1 then Print(items[0])
    else Print(items[0]) + "," + PrintItems(items[1..])
  }

  function PrintMember(m: Member): string
    decreases m, 1
  {
    "\"" + Escape(m.name) + "\":" + Print(m.value)
  }

  function PrintMembers(members: seq<Member>): string
    decreases members, 1
  {
    if members == [] then ""
    else if |members| == 1 then PrintMember(members[0])
    else PrintMember(members[0]) + "," + PrintMembers(members[1..])
  }

  // ----- reading back what was printed -----

  lemma ParseEscapedChar(c: char, rest: string)
    requires c != '\0'
    ensures (EscapeChar(c) == [c] && Plain(c))
      || (EscapeChar(c)[0] == '\\' && ParseEscape(EscapeChar(c)[1..] + rest) == Some((c, rest)))
  {
    if !Plain(c) {
      var e := EscapeChar(c)[1..];
      assert (e + rest)[|e|..] == rest;
    }
  }

  lemma ParsePlainStep(c: char, tail: string, text: string, rest: string)
    requires Plain(c) && ParseChars(tail) == Some((text, rest))
    ensures ParseChars([c] + tail) == Some(([c] + text, rest))
  {
    assert ([c] + tail)[1..] == tail;
  }

  lemma ParseEscapeStep(e: string, c: char, tail: string, text: string, rest: string)
    requires e != "" && e[0] == '\\' && ParseEscape(e[1..] + tail) == Some((c, tail))
    requires ParseChars(tail) == Some((text, rest))
    ensures ParseChars(e + tail) == Some(([c] + text, rest))
  {
    hide ParseEscape;
    assert (e + tail)[1..] == e[1..] + tail;
    assert (e + tail)[0] == e[0];
  }

  lemma ParseClosingQuote(rest: string)
    ensures ParseChars("" + "\"" + rest) == Some(("", rest))
  {
    assert ("" + "\"" + rest)[1..] == rest;
  }

  lemma {:induction false} ParseEscapedText(s: string, rest: string)
    requires NulFree(s)
    ensures ParseChars(Escape(s) + "\"" + rest) == Some((s, rest))
  {
    hide EscapeChar, ParseEscape, ParseChars;
    if s == "" {
      ParseClosingQuote(rest);
    } else {
      var tail := Escape(s[1..]) + "\"" + rest;
      var e := EscapeChar(s[0]);
      Regroup(e, Escape(s[1..]), "\"");
      Regroup(e, Escape(s[1..]) + "\"", rest);
      ParseEscapedText(s[1..], rest);
      ParseEscapedChar(s[0], tail);
      assert s == [s[0]] + s[1..];
      if e == [s[0]] && Plain(s[0]) {
        ParsePlainStep(s[0], tail, s[1..], rest);
      } else {
        ParseEscapeStep(e, s[0], tail, s[1..], rest);
      }
    }
  }

  lemma ParsePrintedNat(n: nat, rest: string)
    requires NumberEnds(rest)
    ensures ParseNat(NatString(n) + rest) == Some((n, rest))
    ensures IsDigit((NatString(n) + rest)[0])
  {
    var digits := NatString(n);
    DigitSpanOfNumber(digits, rest);
    DecimalRoundTrip(n);
    assert (digits + rest)[..|digits|] == digits;
    assert (digits + rest)[|digits|..] == rest;
    assert (digits + rest)[0] == digits[0];
  }

  lemma ParsePrintedNumber(n: int, rest: string)
    requires NumberEnds(rest)
    ensures ParseNumber(IntString(n) + rest) == Some((Number(n), rest))
    ensures var c := (IntString(n) + rest)[0]; IsDigit(c) || c == '-'
  {
    hide NatString, ParseNat;
    if n < 0 {
      ParsePrintedNat(-n, rest);
      assert (IntString(n) + rest)[1..] == NatString(-n) + rest;
    } else {
      ParsePrintedNat(n, rest);
    }
  }

  /** Every text in a value can be a C string. */
  predicate Printable(v: Json)
    decreases v, 0
  {
    match v
    case String(s) => NulFree(s)
    case Array(items) => forall i :: 0 <= i < |items| ==> Printable(items[i])
    case Object(members) => forall i :: 0 <= i < |members| ==> PrintableMember(members[i])
    case _ => true
  }

  predicate PrintableMember(m: Member)
    decreases m, 1
  {
    NulFree(m.name) && Printable(m.value)
  }

  /** A value's first character: neither space nor a closing bracket, so readers start on it. */
  predicate ValueStart(s: string) {
    s != "" && !IsSpace(s[0]) && s[0] != ']' && s[0] != '}'
  }

  lemma ParseStringValue(s: string, body: string, text: string, rest: string)
    requires s == "\"" + body && ParseChars(body) == Some((text, rest))
    ensures ParseValue(s) == Some((String(text), rest))
  {
    hide ParseChars;
    assert s[1..] == body;
  }

  lemma ParseArrayValue(s: string, body: string, items: seq<Json>, rest: string)
    requires s == "[" + body && ValueStart(body) && ParseItems(body) == Some((items, rest))
    ensures ParseValue(s) == Some((Array(items), rest))
  {
    hide ParseItems;
    assert s[1..] == body;
  }

  lemma ParseObjectValue(s: string, body: string, members: seq<Member>, rest: string)
    requires s == "{" + body && ValueStart(body) && ParseMembers(body) == Some((members, rest))
    ensures ParseValue(s) == Some((Object(members), rest))
  {
    hide ParseMembers;
    assert s[1..] == body;
  }

  lemma ParseLastItem(s: string, item: Json, rest: string)
    requires ParseValue(s) == Some((item, "]" + rest))
    ensures ParseItems(s) == Some(([item], rest))
  {
    hide ParseValue;
    assert ("]" + rest)[1..] == rest;
  }

  lemma ParseMoreItems(s: string, item: Json, tail: string, items: seq<Json>, rest: string)
    requires ParseValue(s) == Some((item, "," + tail)) && ParseItems(tail) == Some((items, rest))
    ensures ParseItems(s) == Some(([item] + items, rest))
  {
    hide ParseValue;
    assert ("," + tail)[1..] == tail;
  }

  lemma ParseNamedValue(s: string, body: string, name: string, after: string, value: Json, rest: string)
    requires s == "\"" + body && ParseChars(body) == Some((name, ":" + after))
    requires ParseValue(after) == Some((value, rest))
    ensures ParseMember(s) == Some((Member(name, value), rest))
  {
    hide ParseChars, ParseValue;
    assert s[1..] == body;
    assert (":" + after)[1..] == after;
  }

  lemma ParseLastMember(s: string, member: Member, rest: string)
    requires ParseMember(s) == Some((member, "}" + rest))
    ensures ParseMembers(s) == Some(([member], rest))
  {
    hide ParseMember;
    assert ("}" + rest)[1..] == rest;
  }

  lemma ParseMoreMembers(s: string, member: Member, tail: string, members: seq<Member>, rest: string)
    requires ParseMember(s) == Some((member, "," + tail)) && ParseMembers(tail) == Some((members, rest))
    ensures ParseMembers(s) == Some(([member] + members, rest))
  {
    hide ParseMember;
    assert ("," + tail)[1..] == tail;
  }

  lemma ParseConstant(v: Json, rest: string)
    requires v == Null || v.Bool? || v == Array([]) || v == Object([])
    ensures ParseValue(Print(v) + rest) == Some((v, rest)) && ValueStart(Print(v) + rest)
  {
    var s := Print(v) + rest;
    assert s[|Print(v)|..] == rest;
    if v.Array? || v.Object? {
      assert s[1..] == [Print(v)[1]] + rest;
      assert s[1..][1..] == rest;
    }
  }

  lemma ParseNumberValue(n: int, rest: string)
    requires NumberEnds(rest)
    ensures ParseValue(Print(Number(n)) + rest) == Some((Number(n), rest))
    ensures ValueStart(Print(Number(n)) + rest)
  {
    hide ParseNumber, IntString;
    ParsePrintedNumber(n, rest);
  }

  /** Reading a printed value gives the value back and stops exactly where it ends. */
  lemma {:induction false} ParsePrinted(v: Json, rest: string)
    requires Printable(v) && NumberEnds(rest)
    ensures ParseValue(Print(v) + rest) == Some((v, rest)) && ValueStart(Print(v) + rest)
    decreases v, 0
  {
    hide ParseValue, ParseItems, ParseMembers, ParseChars, Escape, PrintItems, PrintMembers;
    var s := Print(v) + rest;
    if v == Null || v.Bool? || v == Array([]) || v == Object([]) {
      ParseConstant(v, rest);
    } else {
      match v
      case Number(n) => ParseNumberValue(n, rest);
      case String(text) =>
        ParseEscapedText(text, rest);
        ParseStringValue(s, Escape(text) + "\"" + rest, text, rest);
      case Array(items) =>
        ParsePrintedItems(items, rest);
        ParseArrayValue(s, PrintItems(items) + "]" + rest, items, rest);
      case Object(members) =>
        ParsePrintedMembers(members, rest);
        ParseObjectValue(s, PrintMembers(members) + "}" + rest, members, rest);
    }
  }

  lemma {:induction false} ParsePrintedItems(items: seq<Json>, rest: string)
    requires items != [] && Printable(Array(items))
    ensures ParseItems(PrintItems(items) + "]" + rest) == Some((items, rest))
    ensures ValueStart(PrintItems(items) + "]" + rest)
    decreases items, 1
  {
    hide ParseValue, ParseItems, Print;
    var s := PrintItems(items) + "]" + rest;
    if |items| == 1 {
      ParsePrinted(items[0], "]" + rest);
      assert s == Print(items[0]) + ("]" + rest);
      ParseLastItem(s, items[0], rest);
      assert items == [items[0]];
    } else {
      var tail := PrintItems(items[1..]) + "]" + rest;
      ParsePrinted(items[0], "," + tail);
      ParsePrintedItems(items[1..], rest);
      assert s == Print(items[0]) + ("," + tail);
      ParseMoreItems(s, items[0], tail, items[1..], rest);
      assert items == [items[0]] + items[1..];
    }
  }

  lemma {:induction false} ParsePrintedMember(m: Member, rest: string)
    requires PrintableMember(m) && NumberEnds(rest)
    ensures ParseMember(PrintMember(m) + rest) == Some((m, rest))
    ensures ValueStart(PrintMember(m) + rest)
    decreases m, 1
  {
    hide ParseMember, ParseValue, ParseChars, Escape, Print;
    var s := PrintMember(m) + rest;
    var after := Print(m.value) + rest;
    ParseEscapedText(m.name, ":" + after);
    ParsePrinted(m.value, rest);
    assert s == "\"" + (Escape(m.name) + "\"" + (":" + after));
    ParseNamedValue(s, Escape(m.name) + "\"" + (":" + after), m.name, after, m.value, rest);
  }

  lemma {:induction false} ParsePrintedMembers(members: seq<Member>, rest: string)
    requires members != [] && Printable(Object(members))
    ensures ParseMembers(PrintMembers(members) + "}" + rest) == Some((members, rest))
    ensures ValueStart(PrintMembers(members) + "}" + rest)
    decreases members, 1
  {
    hide ParseMember, ParseMembers, PrintMember;
    var s := PrintMembers(members) + "}" + rest;
    if |members| == 1 {
      ParsePrintedMember(members[0], "}" + rest);
      assert s == PrintMember(members[0]) + ("}" + rest);
      ParseLastMember(s, members[0], rest);
      assert members == [members[0]];
    } else {
      var tail := PrintMembers(members[1..]) + "}" + rest;
      ParsePrintedMember(members[0], "," + tail);
      ParsePrintedMembers(members[1..], rest);
      assert s == PrintMember(members[0]) + ("," + tail);
      ParseMoreMembers(s, members[0], tail, members[1..], rest);
      assert members == [members[0]] + members[1..];
    }
  }

  /** The compact printer and the reference parser are inverse on every value. */
  lemma ParsePrint(v: Json)
    requires Printable(v)
    ensures Parse(Print(v)) == Some(v)
  {
    hide ParseValue, Print;
    ParsePrinted(v, "");
    assert Print(v) + "" == Print(v);
  }
}
