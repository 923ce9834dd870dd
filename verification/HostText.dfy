/** What the Host parser does with the literal text of a request. */
module HostTexts {
  import opened CString
  import opened HostHeaders

  /** `name` is the header that counts, and its first occurrence is after `pre`. */
  ghost predicate HeaderAt(request: string, pre: string, name: string, text: string) {
    && request == pre + name + text
    && (name == "\nHost:" || name == "\nhost:")
    && (forall i :: 0 <= i < |pre| ==> !OccursAt(request, name, i))
    && (name == "\nhost:" ==> forall i: nat :: !OccursAt(request, "\nHost:", i))
  }

  /** The line ends before `post`: at the first CR, without one at the first LF, without either
      at the end of the text. */
  ghost predicate LineEnds(line: string, post: string) {
    || ('\r' !in line && post != "" && post[0] == '\r')
    || ('\r' !in line + post && '\n' !in line && (post == "" || post[0] == '\n'))
  }

  /** The value is the line without the blanks before it, cut to 255 characters, and again at its
      first colon; the port is what `atoi` makes of the rest, or 80 without a colon. */
  lemma HostPortIs(request: string, pre: string, name: string, blanks: string, line: string, post: string,
                   host: string, port: string)
    requires HeaderAt(request, pre, name, blanks + (line + post)) && LineEnds(line, post)
    requires forall i :: 0 <= i < |blanks| ==> blanks[i] == ' ' || blanks[i] == '\t'
    requires line + post != "" ==> (line + post)[0] != ' ' && (line + post)[0] != '\t'
    requires ':' !in host
    ensures var value := if |line| <= 255 then line else line[..255];
            && (value == host ==> HostPort(request) == Some((host, 80)))
            && (value == host + ":" + port ==> HostPort(request) == Some((host, Atoi(port))))
  {
    hide Value, Atoi, SkipBlanks, ValueEnd, HeaderAt, LineEnds, Header;
    var text := blanks + (line + post);
    HeaderIs(request, pre, name, text);
    SkipBlanksBefore(blanks, line + post);
    LineEndIs(line, post);
    var value := if |line| <= 255 then line else line[..255];
    ValueIs(text, line, post);
    if value == host + ":" + port {
      StrChrAt(host, ':', port);
      assert value[..|host|] == host && value[|host| + 1..] == port;
    }
  }

  lemma HeaderIs(request: string, pre: string, name: string, text: string)
    requires HeaderAt(request, pre, name, text)
    ensures Header(request) == Some(text)
  {
    assert request[|pre|..|pre| + |name|] == name;
    StrStrAt(request, name, |pre|);
    assert request[|pre| + |name|..] == text;
  }

  lemma LineEndIs(line: string, post: string)
    requires LineEnds(line, post)
    ensures ValueEnd(line + post) == |line|
  {
    if '\r' !in line && post != "" && post[0] == '\r' {
      assert line + post == line + ['\r'] + post[1..];
      StrChrAt(line, '\r', post[1..]);
    } else if post == "" {
      assert line + post == line;
    } else {
      assert line + post == line + ['\n'] + post[1..];
      StrChrAt(line, '\n', post[1..]);
    }
  }

  lemma ValueIs(text: string, line: string, post: string)
    requires SkipBlanks(text) == line + post && ValueEnd(line + post) == |line|
    ensures Value(text) == if |line| <= 255 then line else line[..255]
  {
    hide SkipBlanks, ValueEnd;
  }

  /** Without a header there is no host. */
  lemma NoHost(request: string)
    ensures HostPort(request).None? <==>
            forall i: nat :: !OccursAt(request, "\nHost:", i) && !OccursAt(request, "\nhost:", i)
  {
    hide Value;
  }
}
