/** Binding host patterns and endpoint keys (controller/credentials.go):
    splitHostSpec parses "host:port", endpointKey prints the case-folded key. */
module HostSpec {
  import opened Wrappers
  import opened Decimal

  function IndexOfColon(s: string): (i: nat)
    ensures i <= |s| && ':' !in s[..i]
    ensures i < |s| ==> s[i] == ':'
  {
    if s == [] || s[0] == ':' then 0 else 1 + IndexOfColon(s[1..])
  }

  predicate HostStart(c: char) {
    'A' <= c <= 'Z' || 'a' <= c <= 'z' || '0' <= c <= '9' || c == '_' || c == '*' || c == '-'
  }

  predicate HostChar(c: char) {
    HostStart(c) || c == '.'
  }

  /** bindingHostRe. */
  predicate ValidHost(h: string) {
    h != "" && HostStart(h[0]) && forall i :: 0 <= i < |h| ==> HostChar(h[i])
  }

  /** strconv.Atoi, unbounded: an optional sign and at least one digit. */
  function Atoi(s: string): Option<int> {
    var signed := s != "" && (s[0] == '+' || s[0] == '-');
    var digits := if signed then s[1..] else s;
    if digits == "" || !AllDigits(digits) then None
    else Some(if signed && s[0] == '-' then 0 - Value(digits) else Value(digits))
  }

  /** splitHostSpec; None is its error. */
  function SplitHostSpec(spec: string): (r: Option<(string, nat)>)
    ensures r.Some? ==> ValidHost(r.value.0) && 1 <= r.value.1 <= 65535
  {
    var i := IndexOfColon(spec);
    if i == |spec| || i == 0 || i + 1 == |spec| then None
    else if ':' in spec[i + 1..] || !ValidHost(spec[..i]) then None
    else
      match Atoi(spec[i + 1..])
      case Some(n) => if 1 <= n <= 65535 then Some((spec[..i], n)) else None
      case None => None
  }

  /** unicode.ToLower on the letters whose folding can meet a host name: ASCII, and
      the two others whose lower case is ASCII (the Kelvin sign and dotted I). */
  function Lower(c: char): char {
    if 'A' <= c <= 'Z' then (c as int + 32) as char
    else if c == '\U{212A}' then 'k'
    else if c == '\U{0130}' then 'i'
    else c
  }

  function ToLower(s: string): (r: string)
    ensures |r| == |s| && forall i :: 0 <= i < |s| ==> r[i] == Lower(s[i])
  {
    seq(|s|, i requires 0 <= i < |s| => Lower(s[i]))
  }

  /** endpointKey. */
  function EndpointKey(host: string, port: nat): string {
    ToLower(host) + ":" + Print(port)
  }

  lemma {:induction false} ColonAfter(a: string, b: string)
    requires ':' !in a
    requires b == "" || b[0] == ':'
    ensures IndexOfColon(a + b) == |a|
  {
    if a == "" {
      assert a + b == b;
    } else {
      assert (a + b)[1..] == a[1..] + b;
      ColonAfter(a[1..], b);
    }
  }

  lemma LowerTwice(host: string, port: nat)
    ensures ToLower(ToLower(host)) == ToLower(host)
    ensures EndpointKey(ToLower(host), port) == EndpointKey(host, port)
  {
    assert forall i :: 0 <= i < |host| ==> ToLower(ToLower(host))[i] == ToLower(host)[i];
  }

  lemma LowerKeepsHost(host: string)
    requires ValidHost(host)
    ensures ValidHost(ToLower(host)) && ':' !in ToLower(host)
  {}

  /** Print/parse round trip: the key of a parsed pattern parses again, to the folded
      host and the same port, and has itself as its key. */
  lemma KeyRoundTrip(host: string, port: nat)
    requires ValidHost(host) && 1 <= port <= 65535
    ensures SplitHostSpec(EndpointKey(host, port)) == Some((ToLower(host), port))
    ensures EndpointKey(ToLower(host), port) == EndpointKey(host, port)
  {
    hide ToLower, Print, Value;
    LowerKeepsHost(host);
    LowerTwice(host, port);
    ValueOfPrint(port);
    var h, p := ToLower(host), Print(port);
    var key := h + (":" + p);
    assert EndpointKey(host, port) == key;
    ColonAfter(h, ":" + p);
    assert key[..|h|] == h && key[|h| + 1..] == p;
    assert IsDigit(p[0]);
    assert ':' !in p;
  }

  /** Exactly the patterns made of letters, digits, dots, underscores, dashes and the
      glob star, not starting with a dot, with a port from 1 to 65535, are accepted, and
      read back as they were written. */
  lemma SpecParsesIff(host: string, port: nat)
    requires ':' !in host
    ensures SplitHostSpec(host + ":" + Print(port)) ==
            if && host != "" && host[0] != '.' && 0 < port < 0x1_0000
               && (forall i :: 0 <= i < |host| ==>
                     || 'a' <= host[i] <= 'z' || 'A' <= host[i] <= 'Z' || '0' <= host[i] <= '9'
                     || host[i] == '.' || host[i] == '_' || host[i] == '*' || host[i] == '-')
            then Some((host, port)) else None
  {
    hide Print, Value;
    ValueOfPrint(port);
    var p := Print(port);
    var spec := host + (":" + p);
    assert host + ":" + p == spec;
    ColonAfter(host, ":" + p);
    assert spec[..|host|] == host && spec[|host| + 1..] == p;
    assert IsDigit(p[0]);
    assert ':' !in p;
  }

  /** Equal, or the two cases of one letter. */
  predicate SameLetter(c: char, d: char) {
    || c == d
    || ('A' <= c <= 'Z' && d as int == c as int + 32)
    || ('A' <= d <= 'Z' && c as int == d as int + 32)
  }

  /** Folding identifies two host names exactly when they differ in letter case only. */
  lemma FoldIgnoresCase(a: string, b: string)
    requires ValidHost(a) && ValidHost(b)
    ensures ToLower(a) == ToLower(b) <==> |a| == |b| && forall i :: 0 <= i < |a| ==> SameLetter(a[i], b[i])
  {
    if ToLower(a) == ToLower(b) {
      forall i | 0 <= i < |a|
        ensures SameLetter(a[i], b[i])
      {
        assert ToLower(a)[i] == ToLower(b)[i];
      }
    }
  }

  lemma SameKey(host: string, port: nat, bound: string, boundPort: nat)
    requires ValidHost(bound) && EndpointKey(host, port) == EndpointKey(bound, boundPort)
    ensures ToLower(host) == ToLower(bound) && port == boundPort
  {
    hide ToLower, Print, Value, ValidHost;
    assert ':' !in ToLower(bound) && ':' !in Print(boundPort) by { NoColons(bound, boundPort); }
    SplitAtColon(ToLower(host), Print(port), ToLower(bound), Print(boundPort));
    ValueOfPrint(port);
    ValueOfPrint(boundPort);
  }

  lemma NoColons(host: string, port: nat)
    requires ValidHost(host)
    ensures ':' !in ToLower(host) && ':' !in Print(port)
  {
    hide ToLower, Print, Value;
    LowerKeepsHost(host);
    ValueOfPrint(port);
  }

  /** A string with one colon splits in one way. */
  lemma SplitAtColon(h': string, p': string, h: string, p: string)
    requires h' + ":" + p' == h + ":" + p && ':' !in h && ':' !in p
    ensures h' == h && p' == p
  {
    var key := h + ":" + p;
    assert key[|h'|] == ':';
    assert forall i :: 0 <= i < |h| ==> key[i] == h[i];
    assert forall i :: |h| < i < |key| ==> key[i] == p[i - |h| - 1];
    assert |h'| == |h|;
    assert key[..|h|] == h && key[..|h'|] == h';
    assert key[|h| + 1..] == p && key[|h'| + 1..] == p';
  }

  /** A key names one folded host and one port: whatever endpoint a policy declares,
      even one whose host is no host name, its key equals the key of a bound pattern
      exactly when host, up to case, and port do. */
  lemma KeyIsExact(host: string, port: nat, bound: string, boundPort: nat)
    requires ValidHost(bound)
    ensures EndpointKey(host, port) == EndpointKey(bound, boundPort) <==>
            ToLower(host) == ToLower(bound) && port == boundPort
  {
    hide ToLower, Print;
    if EndpointKey(host, port) == EndpointKey(bound, boundPort) {
      SameKey(host, port, bound, boundPort);
    }
  }
}
