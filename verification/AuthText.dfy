/** What the credential parser and the cache do with the literal text of a request. */
module AuthTexts {
  import opened CString
  import opened Base64
  import opened Auth
  import opened AuthCaches

  ghost predicate White(s: string) {
    forall i :: 0 <= i < |s| ==> s[i] == ' ' || 9 <= s[i] as int <= 13
  }

  ghost predicate NoWhite(s: string) {
    forall i :: 0 <= i < |s| ==> s[i] != ' ' && !(9 <= s[i] as int <= 13)
  }

  // ---------- user and password ----------

  /** `s` is a user, a colon, white space, a password, and the rest that the scanner leaves. */
  ghost predicate Splits(s: string, u: User, blanks: string, rest: string) {
    && s == u.username + ":" + blanks + u.password + rest
    && 0 < |u.username| <= 255 && ':' !in u.username
    && White(blanks)
    && 0 < |u.password| <= 255 && NoWhite(u.password)
    && (rest == "" || White(rest[..1]) || |u.password| == 255)
  }

  /** The scanner finds exactly that. */
  lemma ScanIs(s: string, u: User, blanks: string, rest: string)
    requires Splits(s, u, blanks, rest)
    ensures Scan(s) == Some(u)
  {
    hide Span, SkipSpace;
    SplitAt(s, u.username, blanks, u.password, rest);
    SpanOf(u.username, ":" + blanks + u.password + rest, c => c == ':', 255);
    SkipAll(blanks, u.password + rest);
    WordSpanUpTo(u.password, rest, 255);
  }

  lemma SplitAt(s: string, a: string, b: string, c: string, d: string)
    requires s == a + ":" + b + c + d
    ensures s == a + (":" + b + c + d) && s[..|a|] == a && s[|a|] == ':' && s[|a| + 1..] == b + (c + d)
    ensures (c + d)[..|c|] == c && (c != "" ==> (c + d)[0] == c[0])
  {
  }

  lemma {:induction false} WordSpanUpTo(s: string, rest: string, max: nat)
    requires |s| <= max && NoWhite(s) && (rest == "" || White(rest[..1]) || |s| == max)
    ensures Span(s + rest, c => IsSpace(c), max) == |s|
  {
    if s == "" {
      assert s + rest == rest;
      if rest != "" && max > 0 {
        assert rest[..1][0] == rest[0];
      }
    } else {
      assert (s + rest)[1..] == s[1..] + rest;
      WordSpanUpTo(s[1..], rest, max - 1);
    }
  }

  /** And it finds something only in such a text. */
  lemma ScanParts(s: string) returns (blanks: string, rest: string)
    requires Scan(s).Some?
    ensures Splits(s, Scan(s).value, blanks, rest)
  {
    hide Span, SkipSpace, White, NoWhite;
    var n := Span(s, c => c == ':', 255);
    var k := SkippedSpace(s[n + 1..]);
    blanks := s[n + 1..][..k];
    var t := s[n + 1..][k..];
    var m := Span(t, c => IsSpace(c), 255);
    rest := t[m..];
    Rejoined(s, n, k, m);
    WordIsNoWhite(t, m);
    assert ':' !in s[..n];
  }

  lemma Rejoined(s: string, n: nat, k: nat, m: nat)
    requires n < |s| && s[n] == ':' && k <= |s[n + 1..]| && m <= |s[n + 1..][k..]|
    ensures var t := s[n + 1..]; s == s[..n] + ":" + t[..k] + t[k..][..m] + t[k..][m..]
  {
  }

  lemma WordIsNoWhite(t: string, m: nat)
    requires m <= |t| && m <= 255
    requires (forall i :: 0 <= i < m ==> !IsSpace(t[i])) && (m < |t| && m < 255 ==> IsSpace(t[m]))
    ensures NoWhite(t[..m]) && (t[m..] == "" || White(t[m..][..1]) || |t[..m]| == 255)
  {
    forall i | 0 <= i < m
      ensures t[..m][i] != ' ' && !(9 <= t[..m][i] as int <= 13)
    {
      assert !IsSpace(t[i]);
    }
  }

  lemma {:induction false} SkippedSpace(s: string) returns (k: nat)
    ensures k <= |s| && SkipSpace(s) == s[k..] && White(s[..k])
  {
    if s != "" && IsSpace(s[0]) {
      var j := SkippedSpace(s[1..]);
      k := j + 1;
      assert s[..k] == [s[0]] + s[1..][..j];
    } else {
      k := 0;
    }
  }

  // ---------- the header ----------

  /** `name` is the header that counts, and its first occurrence is after `pre`. */
  ghost predicate HeaderAt(request: string, pre: string, name: string, value: string) {
    && request == pre + name + value
    && (name == "Proxy-Authorization:" || name == "Authorization:")
    && (forall i :: 0 <= i < |pre| ==> !OccursAt(request, name, i))
    && (name == "Authorization:" ==> forall i: nat :: !OccursAt(request, "Proxy-Authorization:", i))
  }

  /** The line that starts with `line` ends before `post`: at a CR LF, without one at an LF,
      without either at the end of the text. */
  ghost predicate LineEnds(line: string, post: string) {
    || (post != "" && OccursAt(line + post, "\r\n", |line|)
        && forall i :: 0 <= i < |line| ==> !OccursAt(line + post, "\r\n", i))
    || ((forall i: nat :: !OccursAt(line + post, "\r\n", i)) && '\n' !in line && (post == "" || post[0] == '\n'))
  }

  lemma CredentialsAre(request: string, pre: string, name: string, blanks: string, b64: string, post: string)
    requires HeaderAt(request, pre, name, blanks + ("Basic " + b64 + post)) && White(blanks) && LineEnds(b64, post)
    ensures Credentials(request) == Some(b64)
  {
    var value := blanks + ("Basic " + b64 + post);
    HeaderIs(request, pre, name, value);
    SkipAll(blanks, "Basic " + b64 + post);
    var v := "Basic " + b64 + post;
    assert v[..6] == "Basic " && v[6..] == b64 + post;
    LineEndIs(b64, post);
    assert (b64 + post)[..|b64|] == b64;
  }

  lemma HeaderIs(request: string, pre: string, name: string, value: string)
    requires HeaderAt(request, pre, name, value)
    ensures HeaderValue(request) == Some(value)
  {
    assert request[|pre|..|pre| + |name|] == name;
    StrStrAt(request, name, |pre|);
    assert request[|pre| + |name|..] == value;
    assert |"Proxy-Authorization:"| == 20 && |"Authorization:"| == 14;
  }

  lemma LineEndIs(line: string, post: string)
    requires LineEnds(line, post)
    ensures LineEnd(line + post) == |line|
  {
    var s := line + post;
    if post != "" && OccursAt(s, "\r\n", |line|) && forall i :: 0 <= i < |line| ==> !OccursAt(s, "\r\n", i) {
      StrStrAt(s, "\r\n", |line|);
    } else if post == "" {
      assert s == line;
    } else {
      assert s == line + ['\n'] + post[1..];
      StrChrAt(line, '\n', post[1..]);
    }
  }

  /** No header, or one of another scheme, carries no credentials. */
  lemma NoCredentials(request: string, pre: string, name: string, blanks: string, value: string)
    ensures (forall i: nat :: !OccursAt(request, "Proxy-Authorization:", i)) &&
            (forall i: nat :: !OccursAt(request, "Authorization:", i)) ==>
              Credentials(request) == None
    ensures HeaderAt(request, pre, name, blanks + value) && White(blanks) &&
            (value == "" || !IsSpace(value[0])) && !("Basic " <= value) ==>
              Credentials(request) == None
  {
    if HeaderAt(request, pre, name, blanks + value) && White(blanks) && (value == "" || !IsSpace(value[0])) {
      HeaderIs(request, pre, name, blanks + value);
      SkipAll(blanks, value);
    }
  }

  // ---------- the answer ----------

  /** A user whose name and password are bytes, as the credentials of a request carry them. */
  ghost predicate Carries(request: string, u: User) {
    && (forall i :: 0 <= i < |u.username| ==> u.username[i] as int < 256)
    && (forall i :: 0 <= i < |u.password| ==> u.password[i] as int < 256)
    && Scannable(u) && Credentials(request) == Some(Rfc4648(u.username + ":" + u.password))
  }

  /** The table has this user with this password. */
  ghost predicate HasRow(db: Db, u: User) {
    db.answers && u.username in db.users && db.users[u.username] == u.password
  }

  lemma CarriedUser(u: User)
    requires (forall i :: 0 <= i < |u.username| ==> u.username[i] as int < 256)
    requires (forall i :: 0 <= i < |u.password| ==> u.password[i] as int < 256)
    requires Scannable(u)
    ensures UserFromB64Spec(Rfc4648(u.username + ":" + u.password)) == Some(u)
  {
    hide Rfc4648, Scannable, Scan;
    DecodeRfc4648(u.username + ":" + u.password);
    ScanRoundTrip(u);
  }

  /** Credentials that no earlier call carried are accepted exactly when the table has their user
      with their password. */
  lemma FirstUseIsLookedUp(calls: seq<Call>, i: nat, u: User)
    requires i < |calls| && Carries(calls[i].request, u)
    requires forall j :: 0 <= j < i ==> Credentials(calls[j].request) != Credentials(calls[i].request)
    ensures Granted(calls, i) <==>
            calls[i].db.answers && u.username in calls[i].db.users && calls[i].db.users[u.username] == u.password
  {
    hide Rfc4648, Scannable, Credentials, UserFromB64Spec;
    var b64 := Rfc4648(u.username + ":" + u.password);
    CarriedUser(u);
    if b64 in After(calls[..i]) {
      var j := EntryVouched(calls[..i], b64);
    }
  }

  lemma FirstCallIsLookedUp(request: string, now: int, t: int, db: Db, u: User)
    requires Carries(request, u)
    ensures Granted([Call(request, now, t, db)], 0) <==>
            db.answers && u.username in db.users && db.users[u.username] == u.password
  {
    hide Carries, Granted;
    FirstUseIsLookedUp([Call(request, now, t, db)], 0, u);
  }

  /** Once accepted, the same credentials are accepted for 3600 seconds whatever the table says
      then, and after that exactly when it has them again. */
  lemma AcceptedForAnHour(first: Call, second: Call, u: User)
    requires Carries(first.request, u) && Carries(second.request, u)
    requires HasRow(first.db, u)
    ensures Granted([first, second], 1) <==>
            || second.now < first.storeTime + 3600
            || (second.db.answers && u.username in second.db.users && second.db.users[u.username] == u.password)
  {
    hide Rfc4648, Scannable, Credentials, UserFromB64Spec;
    CarriedUser(u);
    var calls := [first, second];
    assert calls[..1] == [] + [first] && calls[..1][..0] == [];
    AfterOneMore([], first);
  }

  /** The credentials decode to text that begins with the user, a colon, white space and the password. */
  ghost predicate Shows(b64: string, u: User) {
    Decoded(b64).Some? && exists blanks, rest :: Splits(CStr(Decoded(b64).value), u, blanks, rest)
  }

  lemma MatchShows(b64: string, db: Db) returns (u: User)
    requires Matches(b64, db)
    ensures Shows(b64, u) && HasRow(db, u)
  {
    hide Splits, Decoded, Scan, CStr;
    u := UserFromB64Spec(b64).value;
    var blanks, rest := ScanParts(CStr(Decoded(b64).value));
  }

  /** A call that backs another had the user of those credentials in its table. */
  lemma BackedUser(calls: seq<Call>, j: nat, i: nat) returns (u: User)
    requires i < |calls| && Backs(calls, j, i)
    ensures Credentials(calls[i].request).Some? && Shows(Credentials(calls[i].request).value, u)
    ensures HasRow(calls[j].db, u) && j <= i && (j < i ==> calls[i].now < calls[j].storeTime + 3600)
  {
    hide Credentials, Matches, Shows, Alive;
    u := MatchShows(Credentials(calls[i].request).value, calls[j].db);
  }

  // ---------- a memory of an hour, without a cache ----------

  /** The request carries credentials of a user that the table has with this password. */
  ghost predicate Accepts(call: Call) {
    Credentials(call.request).Some? && exists u :: Shows(Credentials(call.request).value, u) && HasRow(call.db, u)
  }

  /** Call `i` is answered from memory: the same credentials were looked up and accepted by an earlier
      call `j`, less than 3600 seconds ago, and every use of them since then came within that time.
      What other credentials were used in between does not matter. */
  ghost predicate Remembered(calls: seq<Call>, i: nat)
    requires i < |calls|
  {
    exists j: nat :: j < i && Credentials(calls[j].request) == Credentials(calls[i].request)
                     && Accepts(calls[j]) && !Remembered(calls, j)
                     && forall k :: j < k <= i && Credentials(calls[k].request) == Credentials(calls[i].request) ==>
                                      calls[k].now < calls[j].storeTime + 3600
  }

  /** The answers are exactly those of this memory and of the table. */
  lemma GrantedIsRemembered(calls: seq<Call>, i: nat)
    requires i < |calls|
    ensures Granted(calls, i) <==>
            Credentials(calls[i].request).Some? && (Remembered(calls, i) || Accepts(calls[i]))
  {
    hide Credentials, Matches, Accepts, Remembered, Alive, After;
    if Credentials(calls[i].request).Some? {
      MatchesIsAccepts(calls[i]);
      AliveIsRemembered(calls, i);
    }
  }

  lemma MatchesIsAccepts(call: Call)
    requires Credentials(call.request).Some?
    ensures Matches(Credentials(call.request).value, call.db) <==> Accepts(call)
  {
    hide Credentials, Splits, Decoded, Scan, CStr;
    var b64 := Credentials(call.request).value;
    if Matches(b64, call.db) {
      var u := MatchShows(b64, call.db);
    }
    if Accepts(call) {
      var u :| Shows(b64, u) && HasRow(call.db, u);
      var blanks, rest :| Splits(CStr(Decoded(b64).value), u, blanks, rest);
      ScanIs(CStr(Decoded(b64).value), u, blanks, rest);
    }
  }

  /** The entry of `b64` before call `n` is the one that call `j` stored. */
  ghost predicate StoredBy(calls: seq<Call>, n: nat, b64: string, j: nat)
    requires n <= |calls|
  {
    && j < n && Vouches(calls, j, b64)
    && forall k :: j < k < n && Credentials(calls[k].request) == Some(b64) ==> calls[k].now < calls[j].storeTime + 3600
  }

  lemma {:induction false} StoredStays(calls: seq<Call>, n: nat, b64: string, j: nat)
    requires n <= |calls| && StoredBy(calls, n, b64, j)
    ensures b64 in After(calls[..n]) && After(calls[..n])[b64] == calls[j].storeTime + 3600
  {
    hide Credentials, Matches;
    if n == j + 1 {
      MatchIsStored(calls, j, b64);
    } else {
      StoredStays(calls, n - 1, b64, j);
      AfterOneMore(calls[..n - 1], calls[n - 1]);
      assert calls[..n] == calls[..n - 1] + [calls[n - 1]];
    }
  }

  lemma {:induction false} StoredBySome(calls: seq<Call>, n: nat, b64: string) returns (j: nat)
    requires n <= |calls| && b64 in After(calls[..n])
    ensures StoredBy(calls, n, b64, j)
  {
    hide Credentials, Matches;
    var last := n - 1;
    AfterOneMore(calls[..last], calls[last]);
    assert calls[..n] == calls[..last] + [calls[last]];
    if Vouches(calls, last, b64) {
      j := last;
    } else {
      j := StoredBySome(calls, last, b64);
      StoredStays(calls, last, b64, j);
    }
  }

  lemma {:induction false} AliveIsRemembered(calls: seq<Call>, i: nat)
    requires i < |calls| && Credentials(calls[i].request).Some?
    ensures Alive(After(calls[..i]), Credentials(calls[i].request).value, calls[i].now) <==> Remembered(calls, i)
  {
    hide Credentials, Matches, Accepts, After;
    var b64 := Credentials(calls[i].request).value;
    forall j: nat | j < i && Credentials(calls[j].request) == Some(b64)
      ensures Vouches(calls, j, b64) <==> Accepts(calls[j]) && !Remembered(calls, j)
    {
      MatchesIsAccepts(calls[j]);
      AliveIsRemembered(calls, j);
    }
    if Alive(After(calls[..i]), b64, calls[i].now) {
      var j := StoredBySome(calls, i, b64);
      StoredStays(calls, i, b64, j);
    }
    if Remembered(calls, i) {
      var j: nat :| j < i && Credentials(calls[j].request) == Some(b64)
                    && Accepts(calls[j]) && !Remembered(calls, j)
                    && forall k :: j < k <= i && Credentials(calls[k].request) == Some(b64) ==>
                                     calls[k].now < calls[j].storeTime + 3600;
      assert StoredBy(calls, i, b64, j);
      StoredStays(calls, i, b64, j);
    }
  }
}
