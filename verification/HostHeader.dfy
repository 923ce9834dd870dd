/** The `Host` header: the name and the port to connect to. */
module HostHeaders {
  import opened CString

  const HOST_SIZE: nat := 256

  predicate IsBlank(c: char) {
    c == ' ' || c == '\t'
  }

  function SkipBlanks(s: string): (r: string)
    ensures |r| <= |s|
    ensures r != "" ==> !IsBlank(r[0])
  {
    if s != "" && IsBlank(s[0]) then SkipBlanks(s[1..]) else s
  }

  /** What follows the first `\nHost:`, or the first `\nhost:` if there is none. */
  function Header(request: string): Option<string> {
    match StrStr(request, "\nHost:")
    case Some(k) => Some(request[k + 6..])
    case None =>
      match StrStr(request, "\nhost:")
      case Some(k) => Some(request[k + 6..])
      case None => None
  }

  /** The end of the value: the first CR, without one the first LF, without either the end of the text. */
  function ValueEnd(s: string): (n: nat)
    ensures n <= |s|
  {
    match StrChr(s, '\r')
    case Some(k) => k
    case None => match StrChr(s, '\n') case Some(k) => k case None => |s|
  }

  /** The value as the local buffer of 256 characters holds it. */
  function Value(text: string): (v: string)
    ensures |v| < HOST_SIZE
  {
    var s := SkipBlanks(text);
    s[..if ValueEnd(s) < HOST_SIZE then ValueEnd(s) else HOST_SIZE - 1]
  }

  /** Name and port of a value; without a colon the port is 80. */
  ghost function SplitHost(v: string): (string, CInt) {
    match StrChr(v, ':')
    case Some(k) => (v[..k], Atoi(v[k + 1..]))
    case None => (v, 80)
  }

  ghost function HostPort(request: string): (r: Option<(string, CInt)>)
    ensures r.Some? ==> |r.value.0| < HOST_SIZE && ':' !in r.value.0
  {
    match Header(request)
    case None => None
    case Some(text) => Some(SplitHost(Value(text)))
  }

  method ParseHostPort(request: string) returns (r: Option<(string, CInt)>)
    requires NulFree(request)
    ensures r == HostPort(request)
  {
    var found := StrStr(request, "\nHost:");
    if found.None? {
      found := StrStr(request, "\nhost:");
    }
    if found.None? {
      return None;
    }
    var at := found.value + 6;
    ghost var text := request[at..];
    while at < |request| && (request[at] == ' ' || request[at] == '\t')
      invariant found.value + 6 <= at <= |request|
      invariant SkipBlanks(request[at..]) == SkipBlanks(text)
    {
      assert request[at..][1..] == request[at + 1..];
      at := at + 1;
    }
    var pair := SplitValue(request[at..], text);
    r := Some(pair);
  }

  /** Copies the value into the local buffer and overwrites its first colon. */
  method SplitValue(header: string, ghost text: string) returns (r: (string, CInt))
    requires header == SkipBlanks(text)
    ensures r == SplitHost(Value(text))
  {
    var end := StrChr(header, '\r');
    if end.None? {
      end := StrChr(header, '\n');
    }
    var len := if end.None? then |header| else end.value;
    assert len == ValueEnd(header);
    var hostPort := new char[HOST_SIZE];
    if len >= HOST_SIZE {
      len := HOST_SIZE - 1;
    }
    forall i | 0 <= i < len {
      hostPort[i] := header[i];
    }
    hostPort[len] := NUL;
    assert hostPort[..len] == Value(text);
    hide Value, ValueEnd;
    var colon := StrChr(hostPort[..len], ':');
    if colon.Some? {
      hostPort[colon.value] := NUL;
      assert hostPort[..colon.value] == Value(text)[..colon.value];
      assert hostPort[colon.value + 1..len] == Value(text)[colon.value + 1..];
      r := (hostPort[..colon.value], Atoi(hostPort[colon.value + 1..len]));
    } else {
      r := (hostPort[..len], 80);
    }
  }

  // ---------- round trips ----------

  lemma HeaderFound(request: string, pre: string, value: string)
    requires request == pre + "\nHost:" + value
    requires forall i :: 0 <= i < |pre| ==> !OccursAt(request, "\nHost:", i)
    ensures Header(request) == Some(value)
  {
    assert request[|pre|..|pre| + 6] == "\nHost:";
    StrStrAt(request, "\nHost:", |pre|);
  }

  lemma {:induction false} SkipBlanksBefore(blanks: string, s: string)
    requires forall i :: 0 <= i < |blanks| ==> IsBlank(blanks[i])
    requires s == "" || !IsBlank(s[0])
    ensures SkipBlanks(blanks + s) == s
  {
    if blanks == "" {
      assert blanks + s == s;
    } else {
      SkipBlanksBefore(blanks[1..], s);
      assert (blanks + s)[1..] == blanks[1..] + s;
    }
  }

  /** Digits cut off at the end of a number divide it by ten at least. */
  lemma {:induction false} FewerDigits(s: string, m: nat)
    requires m < |s| && forall i :: 0 <= i < |s| ==> IsDigit(s[i])
    ensures 10 * DigitsValue(s[..m], 0) <= DigitsValue(s, 0)
  {
    var t := s[..|s| - 1];
    assert s == t + [s[|s| - 1]];
    DigitsValueAppend(t, s[|s| - 1], 0);
    if m < |t| {
      FewerDigits(t, m);
      assert s[..m] == t[..m];
    } else {
      assert s[..m] == t;
    }
  }

  /** The value `h:p` survives the buffer of 255 characters: it fits, or what is cut off
      does not matter for this port. */
  ghost predicate Fits(h: string, p: nat) {
    || |h| + 1 + |Digits(p)| < HOST_SIZE
    || (|h| == HOST_SIZE - 2 && p == 0)
    || (|h| == HOST_SIZE - 1 && p == 80)
  }

  ghost predicate PlainHost(h: string) {
    ':' !in h && '\r' !in h && (h != "" ==> !IsBlank(h[0]))
  }

  lemma ValueBeforeCr(blanks: string, line: string, post: string)
    requires forall i :: 0 <= i < |blanks| ==> IsBlank(blanks[i])
    requires '\r' !in line && (line != "" ==> !IsBlank(line[0]))
    ensures Value(blanks + line + "\r" + post) == line[..if |line| < HOST_SIZE then |line| else HOST_SIZE - 1]
  {
    var rest := line + "\r" + post;
    assert blanks + line + "\r" + post == blanks + rest;
    assert rest[0] == if line == "" then '\r' else line[0];
    SkipBlanksBefore(blanks, rest);
    assert rest == line + ['\r'] + post;
    StrChrAt(line, '\r', post);
  }

  /** A value before a CR begins without a blank and holds no CR. */
  lemma ValueIsPlain(text: string)
    requires '\r' in SkipBlanks(text)
    ensures '\r' !in Value(text) && (Value(text) != "" ==> !IsBlank(Value(text)[0]))
  {
    var s := SkipBlanks(text);
    assert '\r' !in s[..ValueEnd(s)];
    forall i | 0 <= i < |Value(text)|
      ensures Value(text)[i] != '\r'
    {
      assert Value(text)[i] == s[..ValueEnd(s)][i];
    }
  }

  lemma {:induction false} CrSurvivesSkip(text: string)
    requires '\r' in text
    ensures '\r' in SkipBlanks(text)
  {
    if text != "" && IsBlank(text[0]) {
      CrSurvivesSkip(text[1..]);
    }
  }

  lemma CutHost(h: string, p: nat, v: string)
    requires p < 0x1_0000 && ':' !in h
    requires var line := h + ":" + Digits(p); v == line[..if |line| < HOST_SIZE then |line| else HOST_SIZE - 1]
    ensures SplitHost(v) == (h, p) <==> Fits(h, p)
  {
    var line, d := h + ":" + Digits(p), Digits(p);
    if |h| < HOST_SIZE - 1 {
      var m := if |line| < HOST_SIZE then |d| else HOST_SIZE - 2 - |h|;
      assert v == h + [':'] + d[..m];
      StrChrAt(h, ':', d[..m]);
      assert v[..|h|] == h && v[|h| + 1..] == d[..m];
      PortDigits(p, m);
    } else {
      assert v == h[..HOST_SIZE - 1];
      assert StrChr(v, ':') == None;
      assert |h| == HOST_SIZE - 1 ==> v == h;
    }
  }

  lemma PortDigits(p: nat, m: nat)
    requires p < 0x1_0000 && m <= |Digits(p)|
    ensures Atoi(Digits(p)[..m]) == p <==> m == |Digits(p)| || (m == 0 && p == 0)
  {
    var d := Digits(p);
    DigitsRoundTrip(p);
    if m == |d| {
      assert d[..m] == d;
      AtoiDigits(d);
    } else {
      FewerDigits(d, m);
      if m > 0 {
        AtoiDigits(d[..m]);
        assert p < 10 ==> |d| == 1;
      }
    }
  }

  /** A first `Host:` header with the value `h:p` gives back exactly that pair when, and only
      when, the name has no colon of its own and the value fits. */
  lemma HostPortRoundTrip(request: string, pre: string, blanks: string, h: string, p: nat, post: string)
    requires p < 0x1_0000
    requires request == pre + "\nHost:" + (blanks + (h + ":" + Digits(p)) + "\r" + post)
    requires forall i :: 0 <= i < |pre| ==> !OccursAt(request, "\nHost:", i)
    requires forall i :: 0 <= i < |blanks| ==> IsBlank(blanks[i])
    ensures HostPort(request) == Some((h, p)) <==> PlainHost(h) && Fits(h, p)
  {
    var line := h + ":" + Digits(p);
    var text := blanks + line + "\r" + post;
    HeaderFound(request, pre, text);
    if PlainHost(h) {
      PlainLine(h, p);
      ValueBeforeCr(blanks, line, post);
      CutHost(h, p, Value(text));
    } else {
      assert text[|blanks| + |line|] == '\r';
      CrSurvivesSkip(text);
      ValueIsPlain(text);
      HostIsPrefix(Value(text));
    }
  }

  lemma PlainLine(h: string, p: nat)
    requires PlainHost(h)
    ensures var line := h + ":" + Digits(p); '\r' !in line && !IsBlank(line[0])
  {
    assert '\r' !in Digits(p);
  }

  lemma HostIsPrefix(v: string)
    requires '\r' !in v && (v != "" ==> !IsBlank(v[0]))
    ensures PlainHost(SplitHost(v).0)
  {
  }

  /** Without a port the value is the name, and the port is 80. */
  lemma HostRoundTrip(request: string, pre: string, blanks: string, h: string, post: string)
    requires request == pre + "\nHost:" + (blanks + h + "\r" + post)
    requires forall i :: 0 <= i < |pre| ==> !OccursAt(request, "\nHost:", i)
    requires forall i :: 0 <= i < |blanks| ==> IsBlank(blanks[i])
    requires ':' !in h
    ensures HostPort(request) == Some((h, 80)) <==> PlainHost(h) && |h| < HOST_SIZE
  {
    var text := blanks + h + "\r" + post;
    HeaderFound(request, pre, text);
    if PlainHost(h) {
      ValueBeforeCr(blanks, h, post);
      var v := Value(text);
      assert v == h[..if |h| < HOST_SIZE then |h| else HOST_SIZE - 1];
      assert |h| < HOST_SIZE ==> v == h;
      assert StrChr(v, ':') == None;
    } else {
      assert text[|blanks| + |h|] == '\r';
      CrSurvivesSkip(text);
      ValueIsPlain(text);
      HostIsPrefix(Value(text));
    }
  }
}
