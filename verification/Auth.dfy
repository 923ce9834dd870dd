/** Basic authentication: the credential parser and the cache in front of the user table. */
module Auth {
  import opened CString
  import opened Base64
  import opened HashMaps

  const CACHE_TTL: int := 3600

  datatype User = User(username: string, password: string)

  // ---------- sscanf("%255[^:]:%255s") ----------

  /** The length of the longest prefix of `s`, at most `max`, without a character that stops it. */
  function Span(s: string, stops: char -> bool, max: nat): (n: nat)
    ensures n <= |s| && n <= max
    ensures forall i :: 0 <= i < n ==> !stops(s[i])
    ensures n < |s| && n < max ==> stops(s[n])
  {
    if s == "" || max == 0 || stops(s[0]) then 0 else 1 + Span(s[1..], stops, max - 1)
  }

  function Scan(s: string): Option<User> {
    var n := Span(s, c => c == ':', 255);
    if n == 0 || n == |s| || s[n] != ':' then None
    else
      var rest := SkipSpace(s[n + 1..]);
      var m := Span(rest, c => IsSpace(c), 255);
      if m == 0 then None else Some(User(s[..n], rest[..m]))
  }

  /** A user that HTTP basic authentication can carry and this scanner accepts. */
  ghost predicate Scannable(u: User) {
    && 0 < |u.username| <= 255 && NulFree(u.username) && ':' !in u.username
    && 0 < |u.password| <= 255 && NulFree(u.password) && forall i :: 0 <= i < |u.password| ==> !IsSpace(u.password[i])
  }

  lemma ScanIsScannable(s: string)
    requires NulFree(s)
    ensures Scan(s).Some? ==> Scannable(Scan(s).value)
  {
    if Scan(s).Some? {
      var n := Span(s, c => c == ':', 255);
      SkipSpaceSuffix(s[n + 1..]);
    }
  }

  lemma {:induction false} SkipSpaceSuffix(s: string)
    ensures exists k :: 0 <= k <= |s| && SkipSpace(s) == s[k..]
  {
    if s != "" && IsSpace(s[0]) {
      SkipSpaceSuffix(s[1..]);
      var k :| 0 <= k <= |s[1..]| && SkipSpace(s[1..]) == s[1..][k..];
      assert SkipSpace(s) == s[k + 1..];
    } else {
      assert SkipSpace(s) == s[0..];
    }
  }

  lemma {:induction false} SpanOf(s: string, rest: string, stops: char -> bool, max: nat)
    requires |s| <= max && forall i :: 0 <= i < |s| ==> !stops(s[i])
    requires rest != "" ==> stops(rest[0])
    ensures Span(s + rest, stops, max) == |s|
  {
    if s == "" {
      assert s + rest == rest;
    } else {
      SpanOf(s[1..], rest, stops, max - 1);
      assert (s + rest)[1..] == s[1..] + rest;
    }
  }

  /** Scanning gives the pair back exactly when both parts fit what the format can match. */
  lemma ScanRoundTrip(u: User)
    ensures Scan(CStr(u.username + ":" + u.password)) == Some(u) <==> Scannable(u)
  {
    hide CStr, Span;
    var s := u.username + ":" + u.password;
    ScanIsScannable(CStr(s));
    if Scannable(u) {
      assert NulFree(s);
      SpanOf(u.username, ":" + u.password, c => c == ':', 255);
      assert s == u.username + (":" + u.password);
      assert s[|u.username| + 1..] == u.password;
      assert SkipSpace(u.password) == u.password;
      SpanOf(u.password, "", c => IsSpace(c), 255);
      assert u.password + "" == u.password;
      assert s[..|u.username|] == u.username;
    }
  }

  ghost function UserFromB64Spec(base64: string): Option<User> {
    match Decoded(base64)
    case None => None
    case Some(x) => Scan(CStr(x))
  }

  method UserFromB64(base64: string) returns (user: Option<User>)
    ensures user == UserFromB64Spec(base64)
  {
    var decoded, _ := Decode(base64);
    match decoded
    case None => user := None;
    case Some(x) => user := Scan(CStr(x));
  }

  // ---------- the Authorization header ----------

  ghost function HeaderValue(request: string): Option<string> {
    match StrStr(request, "Proxy-Authorization:")
    case Some(k) => Some(request[k + 20..])
    case None =>
      match StrStr(request, "Authorization:")
      case Some(k) => Some(request[k + 14..])
      case None => None
  }

  ghost function LineEnd(s: string): (n: nat)
    ensures n <= |s|
  {
    match StrStr(s, "\r\n")
    case Some(k) => k
    case None => match StrChr(s, '\n') case Some(k) => k case None => |s|
  }

  ghost function Credentials(request: string): Option<string> {
    match HeaderValue(request)
    case None => None
    case Some(value) =>
      var v := SkipSpace(value);
      if "Basic " <= v then Some(v[6..][..LineEnd(v[6..])]) else None
  }

  method ExtractBasicAuthB64(request: string) returns (b64: Option<string>)
    ensures b64 == Credentials(request)
  {
    var at := 0;
    var found := StrStr(request, "Proxy-Authorization:");
    if found.Some? {
      at := found.value + |"Proxy-Authorization:"|;
    } else {
      found := StrStr(request, "Authorization:");
      if found.None? {
        return None;
      }
      at := found.value + |"Authorization:"|;
    }
    while at < |request| && IsSpace(request[at])
      invariant at <= |request|
      invariant SkipSpace(request[at..]) == SkipSpace(HeaderValue(request).value)
    {
      assert request[at..][1..] == request[at + 1..];
      at := at + 1;
    }
    if !("Basic " <= request[at..]) {
      return None;
    }
    var start := request[at..][6..];
    var end := StrStr(start, "\r\n");
    if end.None? {
      end := StrChr(start, '\n');
    }
    b64 := Some(start[..if end.None? then |start| else end.value]);
  }

  /** A request whose first `Proxy-Authorization:` carries the standard's encoding of
      user:password is parsed back to that pair, exactly when the scanner can match it. */
  lemma CredentialRoundTrip(request: string, pre: string, blank: string, u: User, post: string)
    requires forall i :: 0 <= i < |u.username| ==> u.username[i] as int < 256
    requires forall i :: 0 <= i < |u.password| ==> u.password[i] as int < 256
    requires request ==
             pre + "Proxy-Authorization:" + blank + "Basic " + Rfc4648(u.username + ":" + u.password) + "\r\n" + post
    requires forall i :: 0 <= i < |pre| ==> !OccursAt(request, "Proxy-Authorization:", i)
    requires forall i :: 0 <= i < |blank| ==> IsSpace(blank[i])
    ensures Credentials(request) == Some(Rfc4648(u.username + ":" + u.password))
    ensures UserFromB64Spec(Credentials(request).value) == Some(u) <==> Scannable(u)
  {
    var x: seq<Byte> := u.username + ":" + u.password;
    EncodingHasNoCr(x);
    CredentialsFound(request, pre, blank, Rfc4648(x), post);
    DecodeRfc4648(x);
    ScanRoundTrip(u);
  }

  lemma CredentialsFound(request: string, pre: string, blank: string, b64: string, post: string)
    requires request == pre + "Proxy-Authorization:" + blank + "Basic " + b64 + "\r\n" + post
    requires forall i :: 0 <= i < |pre| ==> !OccursAt(request, "Proxy-Authorization:", i)
    requires forall i :: 0 <= i < |blank| ==> IsSpace(blank[i])
    requires '\r' !in b64
    ensures Credentials(request) == Some(b64)
  {
    var line := b64 + "\r\n" + post;
    var v := "Basic " + line;
    assert request == pre + "Proxy-Authorization:" + (blank + v);
    HeaderFound(request, pre, blank + v);
    assert v[0] == 'B';
    SkipAll(blank, v);
    CrLfEndsLine(b64, post);
    assert v[6..] == line && line[..|b64|] == b64 && "Basic " <= v;
  }

  lemma HeaderFound(request: string, pre: string, value: string)
    requires request == pre + "Proxy-Authorization:" + value
    requires forall i :: 0 <= i < |pre| ==> !OccursAt(request, "Proxy-Authorization:", i)
    ensures HeaderValue(request) == Some(value)
  {
    assert request[|pre|..|pre| + 20] == "Proxy-Authorization:";
    StrStrAt(request, "Proxy-Authorization:", |pre|);
  }

  lemma EncodingHasNoCr(x: seq<Byte>)
    ensures '\r' !in Rfc4648(x)
  {
    DecodeRfc4648(x);
    assert Decodable(Rfc4648(x));
    forall i | 0 <= i < |Rfc4648(x)|
      ensures Rfc4648(x)[i] != '\r'
    {
      assert Value('\r') == 0x80;
    }
  }

  lemma CrLfEndsLine(line: string, post: string)
    requires '\r' !in line
    ensures LineEnd(line + "\r\n" + post) == |line|
  {
    var s := line + "\r\n" + post;
    assert s[|line|..|line| + 2] == "\r\n";
    forall i | 0 <= i < |line|
      ensures !OccursAt(s, "\r\n", i)
    {
      assert s[i] == line[i];
      OccursFirst(s, "\r\n", i);
    }
    StrStrAt(s, "\r\n", |line|);
  }
}
