/** The pairing reply: printed by src/server.c with the escaper, read back by src/transfer.c with
    a first-occurrence search that knows nothing of JSON. */
module PairResponse {
  import opened Text
  import opened Json
  import JsonBuffer

  const LONG_MIN: int := -0x8000_0000_0000_0000
  const LONG_MAX: int := 0x7FFF_FFFF_FFFF_FFFF
  const PATTERN_SIZE: nat := 64

  // ----- libc string search -----

  predicate MatchesAt(text: string, i: nat, pattern: string) {
    i + |pattern| <= |text| && text[i..i + |pattern|] == pattern
  }

  /** strstr from position `from`: the first match at or after it. */
  function StrStr(text: string, pattern: string, from: nat := 0): (r: Option<nat>)
    requires from <= |text|
    ensures r.Some? ==> from <= r.value && MatchesAt(text, r.value, pattern)
    ensures r.Some? ==> forall i :: from <= i < r.value ==> !MatchesAt(text, i, pattern)
    ensures r.None? ==> forall i :: from <= i <= |text| ==> !MatchesAt(text, i, pattern)
    decreases |text| - from
  {
    if MatchesAt(text, from, pattern) then Some(from)
    else if from == |text| then None
    else StrStr(text, pattern, from + 1)
  }

  /** strchr: the first position of `c` at or after `from`. */
  function StrChr(text: string, c: char, from: nat): (r: Option<nat>)
    requires from <= |text|
    ensures r.Some? ==> from <= r.value < |text| && text[r.value] == c
    ensures r.Some? ==> forall i :: from <= i < r.value ==> text[i] != c
    ensures r.None? ==> forall i :: from <= i < |text| ==> text[i] != c
    decreases |text| - from
  {
    if from == |text| then None
    else if text[from] == c then Some(from)
    else StrChr(text, c, from + 1)
  }

  predicate CSpace(c: char) {
    c == ' ' || 9 as char <= c <= 13 as char
  }

  /** strtol in base ten: leading space, one sign, digits; out-of-range values saturate. */
  function StrToLong(s: string): (v: int)
    ensures LONG_MIN <= v <= LONG_MAX
    decreases |s|
  {
    if s != "" && CSpace(s[0]) then StrToLong(s[1..])
    else
      var signed := s != "" && (s[0] == '-' || s[0] == '+');
      var t := if signed then s[1..] else s;
      var n := DigitSpan(t);
      assert forall i :: 0 <= i < n ==> t[..n][i] == t[i];
      var magnitude: int := DecimalValue(t[..n]);
      var v := if signed && s[0] == '-' then -magnitude else magnitude;
      if v < LONG_MIN then LONG_MIN else if v > LONG_MAX then LONG_MAX else v
  }

  // ----- the readers -----

  /** What fits a buffer of this size with its terminator. */
  function Truncate(s: string, size: nat): (r: string)
    ensures r <= s && |r| == if |s| < size then |s| else if size == 0 then 0 else size - 1
  {
    if |s| < size then s else if size == 0 then "" else s[..size - 1]
  }

  function StringPattern(field: string): string {
    Truncate("\"" + field + "\":\"", PATTERN_SIZE)
  }

  function LongPattern(field: string): string {
    Truncate("\"" + field + "\":", PATTERN_SIZE)
  }

  /** What the string reader finds, before it is cut to the destination. */
  function FieldText(json: string, field: string): Option<string> {
    match StrStr(json, StringPattern(field))
    case None => None
    case Some(at) =>
      var start := at + |StringPattern(field)|;
      match StrChr(json, '"', start)
      case None => None
      case Some(end) => Some(json[start..end])
  }

  function FieldLong(json: string, field: string): Option<int> {
    match StrStr(json, LongPattern(field))
    case None => None
    case Some(at) => Some(StrToLong(json[at + |LongPattern(field)|..]))
  }

  /** The C string held in a buffer: the characters before its first terminator. */
  ghost predicate Holds(dest: array<char>, s: string)
    reads dest
  {
    |s| < dest.Length && dest[..|s|] == s && dest[|s|] == '\0'
  }

  method ExtractJsonStringField(json: string, field: string, dest: array<char>) returns (status: int)
    modifies dest
    ensures dest.Length == 0 ==> status == -1
    ensures dest.Length > 0 ==>
      match FieldText(json, field)
      case None => status == -1 && Holds(dest, "")
      case Some(text) => status == 0 && Holds(dest, Truncate(text, dest.Length))
  {
    if dest.Length == 0 {
      return -1;
    }
    var pattern := StringPattern(field);
    var found := StrStr(json, pattern);
    if found.None? {
      dest[0] := '\0';
      return -1;
    }
    var start := found.value + |pattern|;
    var end := StrChr(json, '"', start);
    if end.None? {
      dest[0] := '\0';
      return -1;
    }
    var length := end.value - start;
    if length >= dest.Length {
      length := dest.Length - 1;
    }
    forall i | 0 <= i < length {
      dest[i] := json[start + i];
    }
    dest[length] := '\0';
    assert dest[..length] == json[start..start + length];
    assert json[start..end.value][..length] == json[start..start + length];
    status := 0;
  }

  method ExtractJsonLongField(json: string, field: string) returns (status: int, value: int)
    ensures match FieldLong(json, field)
      case None => status == -1
      case Some(v) => status == 0 && value == v
  {
    var pattern := LongPattern(field);
    var found := StrStr(json, pattern);
    if found.None? {
      return -1, 0;
    }
    return 0, StrToLong(json[found.value + |pattern|..]);
  }

  /** The value lies between the first match of the quoted key and the next quote. */
  predicate ValueAt(json: string, pattern: string, at: int, value: string) {
    && 0 <= at <= |json| && MatchesAt(json, at, pattern) && (forall i :: 0 <= i < at ==> !MatchesAt(json, i, pattern))
    && at + |pattern| + |value| < |json|
    && json[at + |pattern|..at + |pattern| + |value|] == value
    && json[at + |pattern| + |value|] == '"' && '"' !in value
  }

  lemma ReadIsValueAt(json: string, pattern: string, at: nat, end: nat)
    requires StrStr(json, pattern) == Some(at) && StrChr(json, '"', at + |pattern|) == Some(end)
    ensures ValueAt(json, pattern, at, json[at + |pattern|..end])
  {
    var start, value := at + |pattern|, json[at + |pattern|..end];
    hide StrStr, StrChr, MatchesAt;
    assert forall i :: 0 <= i < |value| ==> value[i] == json[start + i];
    assert start + |value| == end;
  }

  lemma ValueAtIsRead(json: string, pattern: string, at: nat, value: string)
    requires ValueAt(json, pattern, at, value)
    ensures StrStr(json, pattern) == Some(at)
    ensures StrChr(json, '"', at + |pattern|) == Some(at + |pattern| + |value|)
  {
    FirstMatch(json, pattern, at);
    hide StrStr, MatchesAt;
    var start := at + |pattern|;
    assert forall i :: start <= i < start + |value| ==> json[i] == value[i - start];
  }

  /** The string reader on any text: for a field whose pattern fits its buffer, exactly that value. */
  lemma FieldTextIff(json: string, field: string, value: string)
    requires |field| <= 59
    ensures var pattern := "\"" + field + "\":\"";
      FieldText(json, field) == Some(value) <==> exists at :: ValueAt(json, pattern, at, value)
  {
    var pattern := "\"" + field + "\":\"";
    assert StringPattern(field) == pattern;
    hide StrStr, StrChr, StringPattern, MatchesAt, ValueAt;
    if FieldText(json, field) == Some(value) {
      var at := StrStr(json, pattern).value;
      ReadIsValueAt(json, pattern, at, StrChr(json, '"', at + |pattern|).value);
    }
    if at :| ValueAt(json, pattern, at, value) {
      MatchStart(json, pattern, at, value);
      ValueAtIsRead(json, pattern, at, value);
      TextBetween(json, pattern, at, value);
    }
  }

  lemma MatchStart(json: string, pattern: string, at: int, value: string)
    requires ValueAt(json, pattern, at, value)
    ensures 0 <= at <= |json|
  {
  }

  lemma TextBetween(json: string, pattern: string, at: nat, value: string)
    requires ValueAt(json, pattern, at, value)
    ensures at + |pattern| + |value| <= |json| && json[at + |pattern|..at + |pattern| + |value|] == value
  {
  }

  // ----- the printer -----

  const HEAD := "{\"status\":\"ok\","
  const MESSAGE_KEY := "\"message\":"
  const TOKEN_KEY := "\"token\":"
  const EXPIRES_KEY := "\"expires_at\":"

  /** The reply, cut where its keys and values meet. */
  function Response(message: string, token: string, expiresAt: int): string {
    Reply(Escape(message), Escape(token), IntString(expiresAt))
  }

  function Reply(m: string, t: string, e: string): string {
    HEAD + MESSAGE_KEY + Quoted(m) + TOKEN_KEY + Quoted(t) + EXPIRES_KEY + e + "}"
  }

  /** A string value and the comma that follows it. */
  function Quoted(s: string): string {
    "\"" + s + "\","
  }

  method PrintPairResponse(message: string, token: string, expiresAt: int) returns (payload: JsonBuffer.Buffer)
    ensures payload.Valid() && payload.Contents() == Response(message, token, expiresAt)
    ensures fresh(payload)
  {
    payload := new JsonBuffer.Buffer();
    PiecesAssemble(Escape(message), Escape(token), IntString(expiresAt));
    hide Escape, EscapeChar, IntString, NatString, payload.Valid, payload.Contents;
    payload.Append("{\"status\":\"ok\",\"message\":\"");
    payload.AppendEscaped(message);
    payload.Append("\",\"token\":\"");
    payload.AppendEscaped(token);
    payload.Appendf("\",\"expires_at\":" + IntString(expiresAt) + "}");
  }

  lemma PiecesAssemble(m: string, t: string, e: string)
    ensures "" + "{\"status\":\"ok\",\"message\":\"" + m + "\",\"token\":\"" + t + ("\",\"expires_at\":" + e + "}")
      == Reply(m, t, e)
  {
    assert "{\"status\":\"ok\",\"message\":\"" == HEAD + MESSAGE_KEY + "\"";
    assert "\",\"token\":\"" == "\"," + TOKEN_KEY + "\"";
    assert "\",\"expires_at\":" == "\"," + EXPIRES_KEY;
    Assemble(HEAD + MESSAGE_KEY, m, TOKEN_KEY, t, EXPIRES_KEY, e + "}");
    Regroup("\"," + EXPIRES_KEY, e, "}");
    Regroup(HEAD + MESSAGE_KEY + Quoted(m) + TOKEN_KEY + Quoted(t) + EXPIRES_KEY, e, "}");
  }

  lemma Assemble(a: string, m: string, b: string, t: string, c: string, e: string)
    ensures "" + (a + "\"") + m + ("\"," + b + "\"") + t + ("\"," + c + e)
      == a + Quoted(m) + b + Quoted(t) + c + e
  {
  }

  // ----- where a pattern can first match -----

  /** A field name the search patterns are built from here. */
  predicate FieldName(field: string) {
    && 0 < |field| < PATTERN_SIZE - 5
    && field[0] != ',' && field[0] != ':'
    && forall i :: 0 <= i < |field| ==> field[i] != '"' && field[i] != '\\'
  }

  predicate NoMatchIn(text: string, pattern: string, lo: nat, hi: nat) {
    forall i :: lo <= i < hi ==> !MatchesAt(text, i, pattern)
  }

  lemma FirstMatch(text: string, pattern: string, n: nat)
    requires NoMatchIn(text, pattern, 0, n) && MatchesAt(text, n, pattern)
    ensures StrStr(text, pattern) == Some(n)
  {
    var r := StrStr(text, pattern);
    assert r.Some? && r.value <= n;
  }

  /** Both search patterns of a field start with its quoted name and a colon. */
  predicate KeyPattern(pattern: string, field: string) {
    FieldName(field) && "\"" + field + "\":" <= pattern
  }

  lemma MatchShape(text: string, i: nat, pattern: string, field: string)
    requires KeyPattern(pattern, field)
    ensures MatchesAt(text, i, pattern) ==>
      && i + |field| + 2 < |text|
      && text[i] == '"' && text[i + |field| + 1] == '"' && text[i + |field| + 2] == ':'
      && text[i + 1] == field[0] && text[i + |field|] != '\\'
      && forall j :: i < j <= i + |field| ==> text[j] != '"'
  {
    var key := "\"" + field + "\":";
    if MatchesAt(text, i, pattern) {
      assert forall j :: i <= j < i + |key| ==> text[j] == text[i..i + |pattern|][j - i] == key[j - i];
    }
  }

  /** No match starts inside fixed text whose every quote precedes some other letter. */
  lemma NoMatchInFixed(before: string, fixed: string, after: string, pattern: string, field: string)
    requires KeyPattern(pattern, field)
    requires forall i :: 0 <= i < |fixed| && fixed[i] == '"' ==> i + 1 < |fixed| && fixed[i + 1] != field[0]
    ensures NoMatchIn(before + fixed + after, pattern, |before|, |before| + |fixed|)
  {
    var text := before + fixed + after;
    assert forall j :: |before| <= j < |before| + |fixed| ==> text[j] == fixed[j - |before|];
    forall i | |before| <= i < |before| + |fixed|
      ensures !MatchesAt(text, i, pattern)
    {
      MatchShape(text, i, pattern, field);
      assert text[i] == fixed[i - |before|];
    }
  }

  predicate GuardedQuotes(s: string) {
    forall j :: 0 <= j < |s| && s[j] == '"' ==> j > 0 && s[j - 1] == '\\'
  }

  /** The heart of the round trip: no match starts inside a string value, from its opening quote
      to its comma, even when the value contains the pattern or ends with a fragment of it. */
  lemma NoMatchInQuoted(before: string, s: string, after: string, pattern: string, field: string)
    requires KeyPattern(pattern, field) && GuardedQuotes(s)
    ensures NoMatchIn(before + Quoted(s) + after, pattern, |before|, |before| + |Quoted(s)|)
  {
    var text := before + Quoted(s) + after;
    var start, close := |before| + 1, |before| + 1 + |s|;
    assert text[close] == '"' && text[close + 1] == ',';
    assert forall q :: start <= q < close ==> text[q] == s[q - start];
    // where the name's closing quote would fall inside the value, its predecessor is a backslash
    assert forall q :: start <= q < close && text[q] == '"' ==> q > start && text[q - 1] == '\\';
    forall i | |before| <= i < |before| + |Quoted(s)|
      ensures !MatchesAt(text, i, pattern)
    {
      MatchShape(text, i, pattern, field);
    }
  }

  // ----- the round trip -----

  lemma GuardedEscape(s: string)
    ensures GuardedQuotes(Escape(s))
  {
    forall j | 0 <= j < |Escape(s)| && Escape(s)[j] == '"'
      ensures j > 0 && Escape(s)[j - 1] == '\\'
    {
      EscapedQuotes(s, j);
    }
  }

  lemma NoMatchThrough(text: string, pattern: string, a: nat, b: nat, c: nat)
    requires NoMatchIn(text, pattern, a, b) && NoMatchIn(text, pattern, b, c)
    ensures NoMatchIn(text, pattern, a, c)
  {
  }

  lemma KeyFound(before: string, key: string, after: string, pattern: string)
    requires pattern <= key && NoMatchIn(before + key + after, pattern, 0, |before|)
    ensures StrStr(before + key + after, pattern) == Some(|before|)
  {
    hide StrStr;
    var text, n := before + key + after, |before|;
    assert text[n..n + |key|] == key;
    assert text[n..n + |pattern|] == key[..|pattern|];
    FirstMatch(text, pattern, n);
  }

  /** A key that follows fixed text and a string value is found, whatever the value. */
  lemma KeyAfterValue(before: string, fixed: string, s: string, key: string, after: string,
                      pattern: string, field: string)
    requires KeyPattern(pattern, field) && GuardedQuotes(s) && pattern <= key
    requires forall i :: 0 <= i < |fixed| && fixed[i] == '"' ==> i + 1 < |fixed| && fixed[i + 1] != field[0]
    requires NoMatchIn(before + fixed + Quoted(s) + key + after, pattern, 0, |before|)
    ensures StrStr(before + fixed + Quoted(s) + key + after, pattern) == Some(|before + fixed + Quoted(s)|)
  {
    hide StrStr, Quoted, MatchesAt, GuardedQuotes;
    var text := before + fixed + Quoted(s) + key + after;
    NoMatchInFixed(before, fixed, Quoted(s) + key + after, pattern, field);
    assert text == before + fixed + (Quoted(s) + key + after);
    NoMatchInQuoted(before + fixed, s, key + after, pattern, field);
    assert text == (before + fixed) + Quoted(s) + (key + after);
    NoMatchThrough(text, pattern, 0, |before|, |before + fixed|);
    NoMatchThrough(text, pattern, 0, |before + fixed|, |before + fixed + Quoted(s)|);
    KeyFound(before + fixed + Quoted(s), key, after, pattern);
  }

  lemma NoMatchBeforeToken(m: string, rest: string, pattern: string, field: string)
    requires KeyPattern(pattern, field) && GuardedQuotes(m) && field[0] !in "so,:m"
    ensures NoMatchIn(HEAD + MESSAGE_KEY + Quoted(m) + rest, pattern, 0, |HEAD + MESSAGE_KEY + Quoted(m)|)
  {
    var fixed := HEAD + MESSAGE_KEY;
    NoMatchInFixed("", fixed, Quoted(m) + rest, pattern, field);
    hide Quoted, MatchesAt;
    var text := fixed + Quoted(m) + rest;
    assert text == "" + fixed + (Quoted(m) + rest);
    NoMatchInQuoted(fixed, m, rest, pattern, field);
    NoMatchThrough(text, pattern, 0, |fixed|, |fixed + Quoted(m)|);
  }

  /** The string reader returns what lies between the matched key and the next quote. */
  lemma ReadQuoted(before: string, s: string, after: string, field: string)
    requires NoMatchIn(before + StringPattern(field) + s + "\"" + after, StringPattern(field), 0, |before|)
    requires '"' !in s
    ensures FieldText(before + StringPattern(field) + s + "\"" + after, field) == Some(s)
  {
    hide StrStr, StringPattern, MatchesAt;
    var pattern := StringPattern(field);
    var text := before + pattern + s + "\"" + after;
    assert text == before + pattern + (s + "\"" + after);
    KeyFound(before, pattern, s + "\"" + after, pattern);
    var start := |before| + |pattern|;
    assert text[start + |s|] == '"';
    assert forall i :: start <= i < start + |s| ==> text[i] == s[i - start];
    assert text[start..start + |s|] == s;
  }

  lemma OpenValue(before: string, key: string, s: string, after: string)
    ensures before + key + Quoted(s) + after == before + (key + "\"") + s + "\"" + ("," + after)
  {
  }

  lemma ReplyFromToken(m: string, t: string, e: string)
    ensures Reply(m, t, e)
      == HEAD + MESSAGE_KEY + Quoted(m) + TOKEN_KEY + Quoted(t) + (EXPIRES_KEY + e + "}")
    ensures Reply(m, t, e)
      == HEAD + MESSAGE_KEY + Quoted(m) + (TOKEN_KEY + Quoted(t) + (EXPIRES_KEY + e + "}"))
    ensures Reply(m, t, e)
      == HEAD + MESSAGE_KEY + Quoted(m) + TOKEN_KEY + Quoted(t) + EXPIRES_KEY + (e + "}")
  {
    var before := HEAD + MESSAGE_KEY + Quoted(m);
    hide Quoted;
    Regroup(before + TOKEN_KEY + Quoted(t), EXPIRES_KEY, e);
    Regroup(before + TOKEN_KEY + Quoted(t), EXPIRES_KEY + e, "}");
    Regroup(before, TOKEN_KEY, Quoted(t));
    Regroup(before, TOKEN_KEY + Quoted(t), EXPIRES_KEY + e + "}");
    Regroup(before + TOKEN_KEY + Quoted(t) + EXPIRES_KEY, e, "}");
  }

  lemma TokenOfReply(m: string, t: string, e: string)
    requires GuardedQuotes(m) && '"' !in t
    ensures FieldText(Reply(m, t, e), "token") == Some(t)
  {
    var before, rest := HEAD + MESSAGE_KEY + Quoted(m), EXPIRES_KEY + e + "}";
    assert StringPattern("token") == TOKEN_KEY + "\"";
    ReplyFromToken(m, t, e);
    NoMatchBeforeToken(m, TOKEN_KEY + Quoted(t) + rest, StringPattern("token"), "token");
    OpenValue(before, TOKEN_KEY, t, rest);
    hide Reply, FieldText, Quoted, StringPattern, MatchesAt;
    ReadQuoted(before, t, "," + rest, "token");
  }

  /** The token comes back exactly, whatever the message says. */
  lemma TokenRoundTrip(message: string, token: string, expiresAt: int)
    requires AllPlain(token)
    ensures FieldText(Response(message, token, expiresAt), "token") == Some(token)
  {
    EscapeIdentity(token);
    GuardedEscape(message);
    hide Escape, IntString, Reply, FieldText;
    TokenOfReply(Escape(message), token, IntString(expiresAt));
  }

  lemma StrToLongOfNat(n: nat, rest: string)
    requires n <= -LONG_MIN && NoDigitFirst(rest)
    ensures n <= LONG_MAX ==> StrToLong(NatString(n) + rest) == n
    ensures StrToLong("-" + (NatString(n) + rest)) + n == 0
  {
    NatPrefix(n, rest);
    hide NatString, DigitSpan, DecimalValue;
    assert ("-" + (NatString(n) + rest))[1..] == NatString(n) + rest;
  }

  lemma NatPrefix(n: nat, rest: string)
    requires NoDigitFirst(rest)
    ensures var s := NatString(n) + rest;
      DigitSpan(s) == |NatString(n)| && DecimalValue(s[..DigitSpan(s)]) == n && IsDigit(s[0])
  {
    DigitSpanOfNumber(NatString(n), rest);
    DecimalRoundTrip(n);
    assert (NatString(n) + rest)[..|NatString(n)|] == NatString(n);
  }

  lemma StrToLongRoundTrip(n: int, rest: string)
    requires LONG_MIN <= n <= LONG_MAX && NoDigitFirst(rest)
    ensures StrToLong(IntString(n) + rest) == n
  {
    hide NatString, StrToLong;
    if n < 0 {
      StrToLongOfNat(-n, rest);
      Regroup("-", NatString(-n), rest);
    } else {
      StrToLongOfNat(n, rest);
    }
  }

  lemma ExpiryKeyFound(m: string, t: string, e: string)
    requires GuardedQuotes(m) && GuardedQuotes(t)
    ensures StrStr(Reply(m, t, e), EXPIRES_KEY) == Some(|HEAD + MESSAGE_KEY + Quoted(m) + TOKEN_KEY + Quoted(t)|)
  {
    ReplyFromToken(m, t, e);
    assert KeyPattern(EXPIRES_KEY, "expires_at");
    hide Reply, Quoted, MatchesAt, StrStr;
    NoMatchBeforeToken(m, TOKEN_KEY + Quoted(t) + (EXPIRES_KEY + e + "}"), EXPIRES_KEY, "expires_at");
    KeyAfterValue(HEAD + MESSAGE_KEY + Quoted(m), TOKEN_KEY, t, EXPIRES_KEY, e + "}", EXPIRES_KEY, "expires_at");
  }

  lemma ExpiryPattern()
    ensures LongPattern("expires_at") == EXPIRES_KEY
  {
  }

  lemma DropPrefix(a: string, b: string)
    ensures (a + b)[|a|..] == b
  {
  }

  lemma ExpiryOfReply(m: string, t: string, e: string)
    requires GuardedQuotes(m) && GuardedQuotes(t)
    ensures FieldLong(Reply(m, t, e), "expires_at") == Some(StrToLong(e + "}"))
  {
    hide Reply, Quoted, LongPattern, StrToLong, StrStr, GuardedQuotes;
    var head := HEAD + MESSAGE_KEY + Quoted(m) + TOKEN_KEY + Quoted(t);
    ExpiryPattern();
    ReplyFromToken(m, t, e);
    ExpiryKeyFound(m, t, e);
    DropPrefix(head + EXPIRES_KEY, e + "}");
  }

  /** The expiry comes back exactly, whatever the message and the token say. */
  lemma ExpiryRoundTrip(message: string, token: string, expiresAt: int)
    requires -0x8000_0000_0000_0000 <= expiresAt <= 0x7FFF_FFFF_FFFF_FFFF
    ensures FieldLong(Response(message, token, expiresAt), "expires_at") == Some(expiresAt)
  {
    GuardedEscape(message);
    GuardedEscape(token);
    StrToLongRoundTrip(expiresAt, "}");
    hide Escape, IntString, Reply, FieldLong, StrToLong;
    ExpiryOfReply(Escape(message), Escape(token), IntString(expiresAt));
  }

  // ----- the message, which need not come back -----

  function UpToQuote(s: string): string {
    match StrChr(s, '"', 0)
    case None => s
    case Some(i) => s[..i]
  }

  lemma MessageOfReply(m: string, t: string, e: string)
    ensures FieldText(Reply(m, t, e), "message") == Some(UpToQuote(m))
  {
    var s, rest := UpToQuote(m), TOKEN_KEY + Quoted(t) + (EXPIRES_KEY + e + "}");
    var pattern := StringPattern("message");
    assert pattern == MESSAGE_KEY + "\"";
    ReplyFromToken(m, t, e);
    OpenValue(HEAD, MESSAGE_KEY, m, rest);
    NoMatchInFixed("", HEAD, pattern + m + "\"" + ("," + rest), pattern, "message");
    hide Reply, FieldText, Quoted, StringPattern, MatchesAt;
    var after := if s == m then "," + rest else m[|s| + 1..] + "\"" + ("," + rest);
    assert m + "\"" + ("," + rest) == s + "\"" + after;
    Regroup(HEAD + pattern, m, "\"");
    Regroup(HEAD + pattern, m + "\"", "," + rest);
    Regroup(HEAD + pattern, s, "\"");
    Regroup(HEAD + pattern, s + "\"", after);
    assert "" + HEAD == HEAD;
    Regroup(HEAD, pattern, m + "\"" + ("," + rest));
    assert pattern + (m + "\"" + ("," + rest)) == pattern + m + "\"" + ("," + rest);
    ReadQuoted(HEAD, s, after, "message");
  }

  /** The client reads the escaped message up to its first quote and never unescapes it, so
      exactly the messages that need no escaping are read back as they were. */
  lemma MessageRoundTripIff(message: string, token: string, expiresAt: int)
    ensures FieldText(Response(message, token, expiresAt), "message") == Some(UpToQuote(Escape(message)))
    ensures FieldText(Response(message, token, expiresAt), "message") == Some(message) <==> AllPlain(message)
  {
    EscapeIdentity(message);
    QuoteSurvives(message);
    hide Escape, IntString, Reply, FieldText;
    MessageOfReply(Escape(message), Escape(token), IntString(expiresAt));
    var s := UpToQuote(Escape(message));
    assert '"' !in s;
  }

  const PAIRED_MESSAGE: string := "Peer pareado com sucesso"

  /** The one message the program prints here needs no escaping, so it does come back. */
  lemma PairedMessageIsRead(token: string, expiresAt: int)
    ensures FieldText(Response(PAIRED_MESSAGE, token, expiresAt), "message") == Some(PAIRED_MESSAGE)
  {
    hide FieldText, Response, AllPlain;
    PairedMessageIsPlain();
    MessageRoundTripIff(PAIRED_MESSAGE, token, expiresAt);
  }

  lemma PairedMessageIsPlain()
    ensures AllPlain(PAIRED_MESSAGE)
  {
  }

  // ----- end to end -----

  /** What the client does with a successful reply: the token is required, a missing expiry is 0. */
  method ReadPairReply(json: string, tokenOut: array<char>) returns (status: int, expiresAt: int)
    modifies tokenOut
    ensures tokenOut.Length > 0 && FieldText(json, "token").Some? ==>
      && status == 0 && Holds(tokenOut, Truncate(FieldText(json, "token").value, tokenOut.Length))
      && expiresAt == (match FieldLong(json, "expires_at") case Some(v) => v case None => 0)
    ensures tokenOut.Length == 0 || FieldText(json, "token").None? ==> status == -1
  {
    hide FieldText, FieldLong, Truncate;
    if tokenOut.Length == 0 {
      return -1, 0;
    }
    var found := ExtractJsonStringField(json, "token", tokenOut);
    if found != 0 {
      return -1, 0;
    }
    var parsed, value := ExtractJsonLongField(json, "expires_at");
    return 0, if parsed == 0 then value else 0;
  }

  /** Printing a reply and reading it back delivers the token and the expiry, for every message,
      every token that needs no escaping and fits, and every long. */
  method DeliverReply(message: string, token: string, expiresAt: int, tokenOut: array<char>)
    returns (status: int, until: int)
    requires AllPlain(token) && |token| < tokenOut.Length && LONG_MIN <= expiresAt <= LONG_MAX
    modifies tokenOut
    ensures status == 0 && Holds(tokenOut, token) && until == expiresAt
  {
    var payload := PrintPairResponse(message, token, expiresAt);
    TokenRoundTrip(message, token, expiresAt);
    ExpiryRoundTrip(message, token, expiresAt);
    hide FieldText, FieldLong, Response;
    var json := payload.Text();
    status, until := ReadPairReply(json, tokenOut);
  }
}
