/** The on-disk envelope of one spooled record: the JSON object
    {"spool_id":N,"data":"..."} exactly as encoding/json writes it, and its
    inverse. JSON escapes every control character inside a string (section 7 of
    RFC 8259), so an encoded envelope never contains a line feed. */
module SpoolCodec {
  import opened Wrappers
  import opened Decimal

  datatype Entry = Entry(id: nat, data: string)

  // ---- hexadecimal escapes ----

  function HexDigit(d: nat): char
    requires d < 16
  {
    if d < 10 then (d + '0' as int) as char else (d - 10 + 'a' as int) as char
  }

  function HexValue(c: char): Option<nat> {
    if '0' <= c <= '9' then Some(c as int - '0' as int)
    else if 'a' <= c <= 'f' then Some(c as int - 'a' as int + 10)
    else if 'A' <= c <= 'F' then Some(c as int - 'A' as int + 10)
    else None
  }

  function Hex4(n: nat): string
    requires n < 0x10000
  {
    [HexDigit(n / 4096), HexDigit(n / 256 % 16), HexDigit(n / 16 % 16), HexDigit(n % 16)]
  }

  function UnHex4(a: char, b: char, c: char, d: char): Option<nat> {
    match (HexValue(a), HexValue(b), HexValue(c), HexValue(d))
    case (Some(w), Some(x), Some(y), Some(z)) => Some(4096 * w + 256 * x + 16 * y + z)
    case _ => None
  }

  // ---- string bodies ----

  /** Characters encoding/json writes as a four-digit escape: the control
      characters without a short form, the HTML-sensitive ones, and the two
      JavaScript line separators. */
  predicate NeedsHex(c: char) {
    || (c < ' ' && c !in {'\n', '\r', '\t', 8 as char, 12 as char})
    || c in {'<', '>', '&', '\U{2028}', '\U{2029}'}
  }

  function ShortEscape(c: char): Option<char> {
    if c == '\"' then Some('\"')
    else if c == '\\' then Some('\\')
    else if c == '\n' then Some('n')
    else if c == '\r' then Some('r')
    else if c == '\t' then Some('t')
    else if c == 8 as char then Some('b')
    else if c == 12 as char then Some('f')
    else None
  }

  function ShortUnescape(c: char): Option<char> {
    if c == '\"' || c == '\\' || c == '/' then Some(c)
    else if c == 'n' then Some('\n')
    else if c == 'r' then Some('\r')
    else if c == 't' then Some('\t')
    else if c == 'b' then Some(8 as char)
    else if c == 'f' then Some(12 as char)
    else None
  }

  function EscapeChar(c: char): (s: string)
    ensures |s| > 0
  {
    match ShortEscape(c)
    case Some(x) => ['\\', x]
    case None => if NeedsHex(c) then ['\\', 'u'] + Hex4(c as int) else [c]
  }

  function Escape(s: string): string {
    if s == [] then [] else EscapeChar(s[0]) + Escape(s[1..])
  }

  /** Reads a string body back. A bare quote, a bare control character, an
      unknown escape or a surrogate code unit is a syntax error. */
  function Unescape(s: string): Option<string> {
    if s == [] then Some([])
    else if s[0] == '\\' then
      if |s| >= 6 && s[1] == 'u' then
        match UnHex4(s[2], s[3], s[4], s[5])
        case Some(n) =>
          if 0xD800 <= n < 0xE000 then None else Prepend(n as char, Unescape(s[6..]))
        case None => None
      else if |s| >= 2 then
        match ShortUnescape(s[1])
        case Some(c) => Prepend(c, Unescape(s[2..]))
        case None => None
      else None
    else if s[0] == '\"' || s[0] < ' ' then None
    else Prepend(s[0], Unescape(s[1..]))
  }

  function Prepend(c: char, o: Option<string>): Option<string> {
    match o case Some(t) => Some([c] + t) case None => None
  }

  lemma HexRoundTrip(d: nat)
    requires d < 16
    ensures HexValue(HexDigit(d)) == Some(d)
  {}

  lemma UnHexOfHex(n: nat)
    requires n < 0x10000
    ensures var h := Hex4(n); UnHex4(h[0], h[1], h[2], h[3]) == Some(n)
  {
    var q := n / 16;
    var r := q / 16;
    assert n / 256 == r && n / 4096 == r / 16;
    HexRoundTrip(n % 16);
    HexRoundTrip(q % 16);
    HexRoundTrip(r % 16);
    HexRoundTrip(r / 16);
    hide HexValue, HexDigit;
    assert n == 16 * q + n % 16 && q == 16 * r + q % 16 && r == 16 * (r / 16) + r % 16;
  }

  lemma UnescapeHead(c: char, rest: string)
    ensures Unescape(EscapeChar(c) + rest) == Prepend(c, Unescape(rest))
  {
    var s := EscapeChar(c) + rest;
    if ShortEscape(c).Some? {
      assert s[2..] == rest;
    } else if NeedsHex(c) {
      UnHexOfHex(c as int);
      assert s[..6] == EscapeChar(c);
      assert s[2] == Hex4(c as int)[0] && s[3] == Hex4(c as int)[1];
      assert s[4] == Hex4(c as int)[2] && s[5] == Hex4(c as int)[3];
      assert s[6..] == rest;
    } else {
      assert s[1..] == rest;
    }
  }

  lemma {:induction false} UnescapeOfEscape(s: string)
    ensures Unescape(Escape(s)) == Some(s)
  {
    if s != [] {
      UnescapeHead(s[0], Escape(s[1..]));
      UnescapeOfEscape(s[1..]);
      assert s == [s[0]] + s[1..];
    }
  }

  lemma {:induction false} EscapeHasNoNewline(s: string)
    ensures '\n' !in Escape(s)
  {
    if s != [] {
      EscapeHasNoNewline(s[1..]);
      assert '\n' !in EscapeChar(s[0]);
    }
  }

  // ---- envelopes ----

  const ID_KEY: string := "{\"spool_id\":"
  const DATA_KEY: string := ",\"data\":\""
  const CLOSE: string := "\"}"

  function StripPrefix(s: string, p: string): (r: Option<string>)
    ensures r.Some? <==> p <= s
    ensures r.Some? ==> s == p + r.value
  {
    if p <= s then Some(s[|p|..]) else None
  }

  function StripSuffix(s: string, p: string): (r: Option<string>)
    ensures r.Some? <==> |p| <= |s| && s[|s| - |p|..] == p
    ensures r.Some? ==> s == r.value + p
  {
    if |p| <= |s| && s[|s| - |p|..] == p then Some(s[..|s| - |p|]) else None
  }

  function Frame(idKey: string, dataKey: string, close: string, digits: string, body: string): string {
    idKey + (digits + (dataKey + (body + close)))
  }

  /** The digits and the string body inside a framed envelope. */
  function Unframe(idKey: string, dataKey: string, close: string, line: string): Option<(string, string)> {
    match StripPrefix(line, idKey)
    case None => None
    case Some(r1) =>
      var k := DigitRun(r1);
      match StripPrefix(r1[k..], dataKey)
      case None => None
      case Some(r2) =>
        match StripSuffix(r2, close)
        case None => None
        case Some(body) => Some((r1[..k], body))
  }

  lemma UnframeOfFrame(idKey: string, dataKey: string, close: string, digits: string, body: string)
    requires AllDigits(digits) && dataKey != "" && !IsDigit(dataKey[0])
    ensures Unframe(idKey, dataKey, close, Frame(idKey, dataKey, close, digits, body)) == Some((digits, body))
  {
    var r2 := body + close;
    var r1 := digits + (dataKey + r2);
    assert StripPrefix(idKey + r1, idKey) == Some(r1);
    DigitRunOfConcat(digits, dataKey + r2);
    assert r1[..|digits|] == digits && r1[|digits|..] == dataKey + r2;
    assert StripPrefix(dataKey + r2, dataKey) == Some(r2);
    assert StripSuffix(r2, close) == Some(body);
  }

  /** json.Marshal of the envelope. */
  function Encode(e: Entry): string {
    Frame(ID_KEY, DATA_KEY, CLOSE, Print(e.id), Escape(e.data))
  }

  /** json.Unmarshal restricted to the shape Encode writes. */
  function Decode(line: string): Option<Entry> {
    match Unframe(ID_KEY, DATA_KEY, CLOSE, line)
    case None => None
    case Some((digits, body)) =>
      if digits == "" || !AllDigits(digits) then None else
        match Unescape(body)
        case None => None
        case Some(data) => Some(Entry(Value(digits), data))
  }

  /** Decoding what was encoded gives the entry, for every id and every text. */
  lemma DecodeOfEncode(e: Entry)
    ensures Decode(Encode(e)) == Some(e)
  {
    hide Frame, Unframe, Escape, Unescape, Print, Value;
    UnframeOfFrame(ID_KEY, DATA_KEY, CLOSE, Print(e.id), Escape(e.data));
    ValueOfPrint(e.id);
    UnescapeOfEscape(e.data);
  }

  lemma EncodeHasNoNewline(e: Entry)
    ensures '\n' !in Encode(e)
    ensures Encode(e) != ""
  {
    EscapeHasNoNewline(e.data);
  }
}
