/**
 The audio server's address.
 */
module Urls {
  import opened Bytes

  datatype Url = Url(scheme: bytes, host: bytes, port: int, basePath: bytes)

  datatype Parsed = Rejected | Accepted(url: Url)

  const SLASH: byte := 0x2F
  const LBRACKET: byte := 0x5B
  const RBRACKET: byte := 0x5D
  const HTTP: bytes := [0x68, 0x74, 0x74, 0x70]
  const HTTPS: bytes := [0x68, 0x74, 0x74, 0x70, 0x73]
  const AFTER_SCHEME: bytes := [COLON, SLASH, SLASH]

  predicate Secure(url: Url) {
    url.scheme == HTTPS
  }

  predicate Strippable(b: byte) {
    b == SP || b == SLASH
  }

  /** `s` without the blanks and slashes at its end. */
  function Stripped(s: bytes): (r: bytes)
    ensures r <= s
    ensures r != [] ==> !Strippable(r[|r| - 1])
  {
    if s != [] && Strippable(s[|s| - 1]) then Stripped(s[..|s| - 1]) else s
  }

  /** Where "://" first occurs in `s`; the length of `s` when it does not. */
  function SchemeEnd(s: bytes): (i: nat)
    ensures i <= |s|
    ensures i < |s| ==> AFTER_SCHEME <= s[i..]
  {
    if s == [] || AFTER_SCHEME <= s then 0 else 1 + SchemeEnd(s[1..])
  }

  /** The position of the last `b` in `s`; the length of `s` when there is none. */
  function LastIndexOf(s: bytes, b: byte): (i: nat)
    ensures i <= |s|
    ensures i < |s| ==> s[i] == b && b !in s[i + 1..]
    ensures i == |s| ==> b !in s
  {
    if b !in s then |s|
    else if s[|s| - 1] == b then |s| - 1
    else
      assert s == s[..|s| - 1] + [s[|s| - 1]];
      var i := LastIndexOf(s[..|s| - 1], b);
      assert s[i + 1..] == s[..|s| - 1][i + 1..] + [s[|s| - 1]];
      i
  }

  predicate Numeric(s: bytes) {
    s != [] && forall b | b in s :: DIGIT_0 <= b <= DIGIT_9
  }

  /** The host and the port of the part between the scheme and the path. */
  function HostAndPort(hostport: bytes, default: int): (bytes, int) {
    var colon := LastIndexOf(hostport, COLON);
    var split := colon < |hostport| && RBRACKET !in hostport && Numeric(hostport[colon + 1..]);
    var host := if split then hostport[..colon] else hostport;
    var port := if split then Digits(hostport[colon + 1..], 10, 0) else default;
    (if |host| >= 2 && host[0] == LBRACKET && host[|host| - 1] == RBRACKET then host[1..|host| - 1] else host, port)
  }

  function ParseAfterScheme(scheme: bytes, s: bytes): Parsed {
    if scheme != HTTP && scheme != HTTPS then Rejected
    else
      var slash := IndexOf(s, SLASH);
      var (host, port) := HostAndPort(s[..slash], if scheme == HTTPS then 443 else 80);
      if host == [] || port <= 0 || port > 65535 then Rejected
      else Accepted(Url(scheme, host, port, s[slash..]))
  }

  function ParseUrl(input: bytes): Parsed {
    var s := Stripped(input);
    if s == [] then Rejected
    else
      var end := SchemeEnd(s);
      if end < |s| then ParseAfterScheme(s[..end], s[end + 3..]) else ParseAfterScheme(HTTP, s)
  }

  method IsNumeric(s: bytes) returns (numeric: bool)
    ensures numeric == Numeric(s)
  {
    numeric := s != [];
    for i := 0 to |s|
      invariant numeric == (s != [] && forall k | 0 <= k < i :: DIGIT_0 <= s[k] <= DIGIT_9)
    {
      if s[i] < DIGIT_0 || s[i] > DIGIT_9 {
        assert s[i] in s;
        return false;
      }
    }
  }

  method SplitHostAndPort(hostport: bytes, default: int) returns (host: bytes, port: int)
    ensures (host, port) == HostAndPort(hostport, default)
  {
    hide LastIndexOf, Digits, Numeric;
    host, port := hostport, default;
    var colon := LastIndexOf(hostport, COLON);
    if colon < |hostport| && RBRACKET !in hostport {
      var numeric := IsNumeric(hostport[colon + 1..]);
      if numeric {
        host, port := hostport[..colon], Digits(hostport[colon + 1..], 10, 0);
      }
    }
    if |host| >= 2 && host[0] == LBRACKET && host[|host| - 1] == RBRACKET {
      host := host[1..|host| - 1];
    }
  }

  /** Reads an address, step by step. */
  method Parse(input: bytes) returns (r: Parsed)
    ensures r == ParseUrl(input)
  {
    hide HostAndPort, SchemeEnd, IndexOf;
    var s := input;
    while s != [] && Strippable(s[|s| - 1])
      invariant Stripped(s) == Stripped(input)
    {
      s := s[..|s| - 1];
    }
    if s == [] {
      return Rejected;
    }
    var scheme, end := HTTP, SchemeEnd(s);
    if end < |s| {
      scheme, s := s[..end], s[end + 3..];
      if scheme != HTTP && scheme != HTTPS {
        return Rejected;
      }
    }
    var slash := IndexOf(s, SLASH);
    var host, port := SplitHostAndPort(s[..slash], if scheme == HTTPS then 443 else 80);
    if host == [] || port <= 0 || port > 65535 {
      return Rejected;
    }
    return Accepted(Url(scheme, host, port, s[slash..]));
  }

  /** What is accepted is in normal form. */
  lemma AcceptedIsNormal(input: bytes)
    requires ParseUrl(input).Accepted?
    ensures var url := ParseUrl(input).url;
            && (url.scheme == HTTP || url.scheme == HTTPS)
            && url.host != [] && 1 <= url.port <= 65535
            && (url.basePath != [] ==> url.basePath[0] == SLASH && !Strippable(url.basePath[|url.basePath| - 1]))
  {
    hide HostAndPort, SchemeEnd, IndexOf;
    var s := Stripped(input);
    var end := SchemeEnd(s);
    if end < |s| {
      var rest := s[end + 3..];
      assert rest[IndexOf(rest, SLASH)..] != [] ==> rest[|rest| - 1] == s[|s| - 1];
    }
  }

  /** A host that needs no brackets, and a path in normal form. */
  predicate PlainHost(host: bytes) {
    host != [] && COLON !in host && SLASH !in host && RBRACKET !in host
  }

  predicate PlainPath(path: bytes) {
    path != [] ==> path[0] == SLASH && !Strippable(path[|path| - 1])
  }

  lemma {:induction false} SchemeEndAt(s: bytes, i: nat)
    requires i <= |s| && AFTER_SCHEME <= s[i..]
    requires COLON !in s[..i]
    ensures SchemeEnd(s) == i
  {
    if i > 0 {
      assert s[0] in s[..i];
      assert s[1..][i - 1..] == s[i..];
      assert forall b | b in s[1..][..i - 1] :: b in s[..i];
      SchemeEndAt(s[1..], i - 1);
    }
  }

  lemma SchemeFound(scheme: bytes, rest: bytes)
    requires COLON !in scheme
    ensures var s := scheme + AFTER_SCHEME + rest;
            |scheme| < |s| && SchemeEnd(s) == |scheme| && s[..|scheme|] == scheme && s[|scheme| + 3..] == rest
  {
    hide SchemeEnd;
    var s := scheme + AFTER_SCHEME + rest;
    assert s[..|scheme|] == scheme && s[|scheme|..] == AFTER_SCHEME + rest;
    SchemeEndAt(s, |scheme|);
  }

  lemma PortReads(host: bytes, port: nat, default: int)
    requires PlainHost(host)
    ensures HostAndPort(host + [COLON] + DecimalText(port), default) == (host, port)
    ensures SLASH !in host + [COLON] + DecimalText(port)
    ensures DecimalText(port) != [] && !Strippable(DecimalText(port)[|DecimalText(port)| - 1])
  {
    hide DecimalText, LastIndexOf, Digits;
    var text := DecimalText(port);
    var s := host + [COLON] + text;
    PortText(port);
    assert s[|host| + 1..] == text && s[..|host|] == host;
    LastIsThere(host, text);
  }

  lemma PortText(port: nat)
    ensures var text := DecimalText(port);
            && Digits(text, 10, 0) == port && Numeric(text) && !Strippable(text[|text| - 1])
            && COLON !in text && RBRACKET !in text && SLASH !in text
  {
    NumeralReadsBack(port, 10, []);
    assert DecimalText(port) + [] == DecimalText(port);
  }

  lemma LastIsThere(host: bytes, text: bytes)
    requires COLON !in text
    ensures LastIndexOf(host + [COLON] + text, COLON) == |host|
  {
    var s := host + [COLON] + text;
    assert s[|host|] == COLON && s[|host| + 1..] == text;
    assert forall j | |host| < j < |s| :: s[j] == text[j - |host| - 1];
  }

  lemma AfterSchemeReads(scheme: bytes, host: bytes, port: nat, path: bytes)
    requires (scheme == HTTP || scheme == HTTPS) && PlainHost(host) && PlainPath(path)
    ensures ParseAfterScheme(scheme, host + [COLON] + DecimalText(port) + path) ==
            if 1 <= port <= 65535 then Accepted(Url(scheme, host, port, path)) else Rejected
  {
    hide HostAndPort, DecimalText, IndexOf;
    var hostport := host + [COLON] + DecimalText(port);
    PortReads(host, port, if scheme == HTTPS then 443 else 80);
    assert (hostport + path)[..|hostport|] == hostport && (hostport + path)[|hostport|..] == path;
    IndexOfUnique(hostport + path, SLASH, |hostport|);
  }

  lemma SchemesAre()
    ensures HTTP == Ascii("http") && HTTPS == Ascii("https") && AFTER_SCHEME == Ascii("://")
  {
  }

  /** A full URL is read as its parts; a port there cannot be is refused. */
  lemma FullUrlReads(scheme: bytes, host: bytes, port: nat, path: bytes)
    requires scheme in [Ascii("http"), Ascii("https")] && PlainHost(host) && PlainPath(path)
    ensures ParseUrl(scheme + Ascii("://") + (host + [COLON] + DecimalText(port) + path)) ==
            if 1 <= port <= 65535 then Accepted(Url(scheme, host, port, path)) else Rejected
  {
    hide SchemeEnd, ParseAfterScheme, DecimalText;
    SchemesAre();
    var rest := host + [COLON] + DecimalText(port) + path;
    var input := scheme + AFTER_SCHEME + rest;
    PortReads(host, port, 80);
    assert input[|input| - 1] == rest[|rest| - 1]
        == if path != [] then path[|path| - 1] else DecimalText(port)[|DecimalText(port)| - 1];
    SchemeFound(scheme, rest);
    AfterSchemeReads(scheme, host, port, path);
  }

  /** What stands behind a colon but is no number belongs to the host. */
  lemma NotAPort(host: bytes, text: bytes, default: int)
    requires COLON !in text && RBRACKET !in host && RBRACKET !in text
    requires text == [] || exists b | b in text :: !('0' as int <= b <= '9' as int)
    ensures HostAndPort(host + [COLON] + text, default) == (host + [COLON] + text, default)
  {
    hide LastIndexOf, Digits;
    var s := host + [COLON] + text;
    LastIsThere(host, text);
    assert s[|host| + 1..] == text;
  }

  /** Whether nothing is stripped from the end of `s`, and something is left. */
  predicate EndsPlain(s: bytes) {
    s != [] && s[|s| - 1] != ' ' as int && s[|s| - 1] != '/' as int
  }

  /** Without a port it is the scheme's own. */
  lemma DefaultPorts(scheme: bytes, host: bytes, path: bytes)
    requires scheme in [Ascii("http"), Ascii("https")] && PlainHost(host) && PlainPath(path) && EndsPlain(host + path)
    ensures ParseUrl(scheme + Ascii("://") + (host + path)) ==
            Accepted(Url(scheme, host, if scheme == Ascii("http") then 80 else 443, path))
  {
    hide SchemeEnd, ParseAfterScheme;
    SchemesAre();
    SchemeFound(scheme, host + path);
    HostAlone(scheme, host, path);
  }

  lemma HostAlone(scheme: bytes, host: bytes, path: bytes)
    requires (scheme == HTTP || scheme == HTTPS) && PlainHost(host) && PlainPath(path)
    ensures ParseAfterScheme(scheme, host + path) ==
            Accepted(Url(scheme, host, if scheme == HTTP then 80 else 443, path))
  {
    hide IndexOf, Numeric, Digits;
    var rest := host + path;
    assert rest[..|host|] == host && rest[|host|..] == path;
    IndexOfUnique(rest, SLASH, |host|);
    assert LastIndexOf(host, COLON) == |host|;
  }

  /** An address without a scheme is plain http. */
  lemma NoScheme(rest: bytes)
    requires EndsPlain(rest) && !Contains(rest, Ascii("://"))
    ensures ParseUrl(rest) == ParseUrl(Ascii("http://") + rest)
  {
    hide ParseAfterScheme, SchemeEnd;
    SchemesAre();
    SchemeFound(HTTP, rest);
    assert Ascii("http://") == HTTP + AFTER_SCHEME;
  }

  /** Any other scheme is refused, in capitals too. */
  lemma OtherSchemes(scheme: bytes, rest: bytes)
    requires COLON !in scheme && scheme !in [Ascii("http"), Ascii("https")] && EndsPlain(rest)
    ensures ParseUrl(scheme + Ascii("://") + rest) == Rejected
  {
    hide SchemeEnd;
    SchemesAre();
    SchemeFound(scheme, rest);
  }

  /** Blanks and slashes at the end make no difference. */
  lemma EndIgnored(s: bytes, b: byte)
    requires b == ' ' as int || b == '/' as int
    ensures ParseUrl(s + [b]) == ParseUrl(s)
  {
    hide ParseAfterScheme, SchemeEnd;
    assert (s + [b])[..|s|] == s;
  }

  /** A bracketed host loses its brackets; but with a port behind it neither is taken apart, and the whole of it is
      taken for a host on the default port. */
  lemma BracketedHost(inner: bytes, port: nat, default: int)
    ensures HostAndPort([LBRACKET] + inner + [RBRACKET], default) == (inner, default)
    ensures var whole := [LBRACKET] + inner + [RBRACKET] + [COLON] + DecimalText(port);
            HostAndPort(whole, default) == (whole, default)
  {
    hide LastIndexOf, DecimalText;
    var host := [LBRACKET] + inner + [RBRACKET];
    assert host[|host| - 1] == RBRACKET && host[1..|host| - 1] == inner;
    var whole := host + [COLON] + DecimalText(port);
    assert whole[|host| - 1] == RBRACKET;
    PortText(port);
    assert whole[|whole| - 1] == DecimalText(port)[|DecimalText(port)| - 1];
  }
}
