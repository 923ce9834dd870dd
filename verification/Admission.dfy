/** That the protected paths can be walked: a user of the table, with a well-formed request, gets
    through to the target it names; and what a refused registration then does to another client. */
module Admissions {
  import opened CString
  import Base64
  import opened Auth
  import opened AuthCaches
  import opened HostHeaders
  import opened Connections
  import opened Lifecycle
  import opened LifecycleProofs
  import opened Ownership
  import opened Dispatches
  import opened Worlds

  // ---------- a request ----------

  /** A plain or a tunnel request by a user, for a host and a port. */
  datatype Asking = Asking(tunnel: bool, user: ByteUser, host: string, port: nat)

  type ByteUser = u: User | Bytewise(u.username) && Bytewise(u.password) witness User("", "")

  predicate Bytewise(s: string) {
    forall i :: 0 <= i < |s| ==> s[i] as int < 256
  }

  function RequestLine(tunnel: bool): string {
    if tunnel then "CONNECT / HTTP/1.1\r\n" else "GET / HTTP/1.1\r\n"
  }

  function Token(u: ByteUser): string
  {
    Base64.Rfc4648(u.username + ":" + u.password)
  }

  function Text(a: Asking): string
  {
    RequestLine(a.tunnel) + "Proxy-Authorization: Basic " + Token(a.user)
    + "\r\nHost: " + a.host + ":" + Digits(a.port) + "\r\n\r\n"
  }

  ghost predicate WellPut(a: Asking) {
    && Scannable(a.user)
    && PlainHost(a.host) && NulFree(a.host) && a.port < 0x1_0000 && Fits(a.host, a.port)
  }

  /** There are such requests of both kinds. */
  lemma SomebodyAsks(tunnel: bool) returns (a: Asking)
    ensures WellPut(a) && a.tunnel == tunnel
  {
    hide Digits;
    a := Asking(tunnel, User("u", "p"), "h", 80);
    FewDigits(80);
  }

  /** The request in front of, and behind, its credentials. */
  lemma AroundToken(a: Asking)
    ensures Text(a) == RequestLine(a.tunnel) + "Proxy-Authorization:" + " " + "Basic " + Token(a.user) + "\r\n"
                       + ("Host: " + a.host + ":" + Digits(a.port) + "\r\n\r\n")
  {
    hide Digits, Token, RequestLine;
    assert "Proxy-Authorization:" + " " + "Basic " == "Proxy-Authorization: Basic ";
    assert "\r\n" + "Host: " == "\r\nHost: ";
  }

  /** And its host. */
  lemma AroundHost(a: Asking)
    ensures Text(a) == (RequestLine(a.tunnel) + "Proxy-Authorization: Basic " + Token(a.user) + "\r") + "\nHost:"
                       + (" " + (a.host + ":" + Digits(a.port)) + "\r" + "\n\r\n")
  {
    hide Digits, Token, RequestLine;
    assert "\r" + "\nHost:" + " " == "\r\nHost: ";
    assert "\r" + "\n\r\n" == "\r\n\r\n";
  }

  lemma FirstLineIsOther(a: Asking, i: nat)
    requires i < |RequestLine(a.tunnel)|
    ensures !OccursAt(Text(a), "Proxy-Authorization:", i)
  {
    hide Digits, Token;
    var s := Text(a);
    assert s[i] == RequestLine(a.tunnel)[i];
    if s[i] == 'P' {
      assert s[i + 1] == RequestLine(a.tunnel)[i + 1] == '/';
      if i + 20 <= |s| {
        assert s[i..i + 20][1] == '/';
      }
    } else {
      OccursFirst(s, "Proxy-Authorization:", i);
    }
  }

  lemma TokenIsOneLine(u: ByteUser)
    ensures forall i :: 0 <= i < |Token(u)| ==> Token(u)[i] != '\n' && Token(u)[i] != NUL
    ensures |Token(u)| <= 4 * ((|u.username| + |u.password| + 3) / 3)
  {
    hide Base64.Rfc4648, Base64.Value, Base64.Emitted, Base64.Chars, Base64.Padding;
    var x: seq<Base64.Byte> := u.username + ":" + u.password;
    Base64.DecodeRfc4648(x);
    Base64.RfcLength(x);
    OutsideAlphabet();
    assert Base64.Decodable(Token(u));
  }

  lemma OutsideAlphabet()
    ensures Base64.Value('\n') == 0x80 == Base64.Value(NUL)
  {
  }

  /** No line feed but the one that ends the first line; there the header for the credentials begins. */
  lemma LineIsOneLine(tunnel: bool)
    ensures var s := RequestLine(tunnel);
            2 <= |s| <= 20 && NulFree(s) && forall i :: 0 <= i < |s| - 1 ==> s[i] != '\n'
  {
  }

  lemma EarlierLinesAreOther(a: Asking, i: nat)
    requires i < |RequestLine(a.tunnel) + "Proxy-Authorization: Basic " + Token(a.user) + "\r"|
    ensures !OccursAt(Text(a), "\nHost:", i)
  {
    hide Digits, Token, RequestLine;
    TokenIsOneLine(a.user);
    LineIsOneLine(a.tunnel);
    var s, n := Text(a), |RequestLine(a.tunnel)|;
    if i == n - 1 {
      assert s[i + 1] == 'P';
      SecondDiffers(s, i);
    } else {
      NoLineFeed(RequestLine(a.tunnel), Token(a.user), i);
      assert s[i] == (RequestLine(a.tunnel) + "Proxy-Authorization: Basic " + Token(a.user) + "\r")[i];
      OccursFirst(s, "\nHost:", i);
    }
  }

  lemma SecondDiffers(s: string, i: nat)
    requires i + 1 < |s| && s[i + 1] == 'P'
    ensures !OccursAt(s, "\nHost:", i)
  {
    if i + 6 <= |s| {
      assert s[i..i + 6][1] == 'P';
    }
  }

  lemma NoLineFeed(line: string, token: string, i: nat)
    requires 0 < |line| && forall k :: 0 <= k < |line| - 1 ==> line[k] != '\n'
    requires '\n' !in token && i != |line| - 1
    requires i < |line + "Proxy-Authorization: Basic " + token + "\r"|
    ensures (line + "Proxy-Authorization: Basic " + token + "\r")[i] != '\n'
  {
    assert '\n' !in "Proxy-Authorization: Basic ";
  }

  lemma TextIsClean(a: Asking)
    requires WellPut(a)
    ensures NulFree(Text(a)) && |Text(a)| <= 2000
  {
    hide Digits, Token, RequestLine, PlainHost;
    TokenIsOneLine(a.user);
    LineIsOneLine(a.tunnel);
    FewDigits(a.port);
    var line, token := RequestLine(a.tunnel), Token(a.user);
    CleanOn(line, "Proxy-Authorization: Basic ");
    CleanOn(line + "Proxy-Authorization: Basic ", token);
    CleanOn(line + "Proxy-Authorization: Basic " + token, "\r\nHost: ");
    CleanOn(line + "Proxy-Authorization: Basic " + token + "\r\nHost: ", a.host);
    CleanOn(line + "Proxy-Authorization: Basic " + token + "\r\nHost: " + a.host, ":");
    CleanOn(line + "Proxy-Authorization: Basic " + token + "\r\nHost: " + a.host + ":", Digits(a.port));
    CleanOn(line + "Proxy-Authorization: Basic " + token + "\r\nHost: " + a.host + ":" + Digits(a.port), "\r\n\r\n");
    hide NulFree;
  }

  lemma CleanOn(s: string, t: string)
    ensures NulFree(s) && NulFree(t) ==> NulFree(s + t)
  {
  }

  lemma FewDigits(n: nat)
    requires n < 0x1_0000
    ensures |Digits(n)| <= 5
  {
    assert Pow10(5) == 100_000;
    DigitsLength(n, 5);
  }

  lemma TextEnds(a: Asking)
    ensures StrStr(Text(a), "\r\n\r\n").Some?
  {
    hide Digits, Token, RequestLine;
    var s := Text(a);
    assert OccursAt(s, "\r\n\r\n", |s| - 4);
  }

  /** Such a request is complete, and parsed back to what it says. */
  lemma Understood(a: Asking)
    requires WellPut(a)
    ensures CStr(Text(a)) == Text(a) && StrStr(Text(a), "\r\n\r\n").Some? && |Text(a)| <= 2000
    ensures "CONNECT " <= Text(a) <==> a.tunnel
    ensures HostPort(Text(a)) == Some((a.host, a.port))
    ensures Credentials(Text(a)) == Some(Token(a.user)) && UserFromB64Spec(Token(a.user)) == Some(a.user)
  {
    hide Text, Token, Scannable, PlainHost, Fits, HostPort, Credentials, UserFromB64Spec, StrStr, NulFree, CStr;
    TextIsClean(a);
    TextEnds(a);
    CredentialsUnderstood(a);
    HostUnderstood(a);
    KindUnderstood(a);
  }

  lemma KindUnderstood(a: Asking)
    ensures "CONNECT " <= Text(a) <==> a.tunnel
  {
    hide Digits, Token;
    assert RequestLine(a.tunnel) <= Text(a);
    if !a.tunnel {
      assert Text(a)[0] == RequestLine(a.tunnel)[0] == 'G';
    }
  }

  lemma CredentialsUnderstood(a: Asking)
    requires WellPut(a)
    ensures Credentials(Text(a)) == Some(Token(a.user)) && UserFromB64Spec(Token(a.user)) == Some(a.user)
  {
    AroundToken(a);
    forall i | 0 <= i < |RequestLine(a.tunnel)|
      ensures !OccursAt(Text(a), "Proxy-Authorization:", i)
    {
      FirstLineIsOther(a, i);
    }
    hide OccursAt, Digits, Text, RequestLine, Scannable, PlainHost, Fits, Credentials, UserFromB64Spec;
    CredentialRoundTrip(Text(a), RequestLine(a.tunnel), " ", a.user,
                        "Host: " + a.host + ":" + Digits(a.port) + "\r\n\r\n");
  }

  lemma HostUnderstood(a: Asking)
    requires WellPut(a)
    ensures HostPort(Text(a)) == Some((a.host, a.port))
  {
    AroundHost(a);
    var pre := RequestLine(a.tunnel) + "Proxy-Authorization: Basic " + Token(a.user) + "\r";
    forall i | 0 <= i < |pre|
      ensures !OccursAt(Text(a), "\nHost:", i)
    {
      EarlierLinesAreOther(a, i);
    }
    hide OccursAt, Digits, Text, Token, RequestLine, Scannable, PlainHost, Fits, HostPort;
    HostPortRoundTrip(Text(a), pre, " ", a.host, a.port, "\n\r\n");
  }

  // ---------- one event of a new client ----------

  /** The outside world hands the request over at once, the table has its user, and the
      connection to the target can be begun. */
  ghost predicate Serves(env: Env, a: Asking) {
    && WellPut(a) && env.recvs != [] && env.recvs[0] == Bytes(Text(a))
    && env.db.answers && a.user.username in env.db.users && env.db.users[a.user.username] == a.user.password
    && env.resolved && !env.connect.Refused?
  }

  /** Every such request can be met by such a world. */
  lemma SomebodyIsServed(a: Asking, socket: int, addOk: bool) returns (env: Env)
    requires WellPut(a)
    ensures Serves(env, a) && env.socket == socket && env.addOk == addOk && env.dataOk && !env.socketError
  {
    hide Text, WellPut;
    env := Env(true, [Bytes(Text(a))], [], 0, 0, 0, 0, Db(true, map[a.user.username := a.user.password]), 0,
               true, socket, InProgress, true, addOk, false, true, true);
  }

  lemma RequestRead(c: Client, env: Env, a: Asking)
    requires c.phase.ReadingRequest? && c.request == "" && c.requestCapacity == MAX_BUFFER_SIZE && Serves(env, a)
    ensures ReadRequest(c, env) ==
            (c.(request := Text(a), h := c.h.(fromClient := c.h.fromClient + Text(a))), 1)
  {
    hide Text, WellPut, CStr, StrStr, Serves, HostPort, Credentials, UserFromB64Spec, Token, Recv;
    FirstRecv(env, a);
    assert "" + Text(a) == Text(a);
  }

  lemma FirstRecv(env: Env, a: Asking)
    requires Serves(env, a)
    ensures Recv(env.recvs, MAX_BUFFER_SIZE) == Bytes(Text(a))
    ensures CStr(Text(a)) == Text(a) && StrStr(Text(a), "\r\n\r\n").Some?
  {
    hide Text, WellPut, CStr, StrStr, HostPort, Credentials, UserFromB64Spec, Token;
    Understood(a);
    TextNotEmpty(a);
    assert Text(a)[..|Text(a)|] == Text(a);
  }

  lemma TextNotEmpty(a: Asking)
    ensures Text(a) != ""
  {
    hide Digits, Token;
  }

  lemma UserIsGranted(calls: seq<Call>, env: Env, a: Asking)
    requires Serves(env, a)
    ensures GrantedLast(calls + [Call(Text(a), env.authNow, env.authStore, env.db)])
  {
    hide Text, Token, WellPut, Credentials, UserFromB64Spec, Alive;
    Understood(a);
    AfterOneMore(calls, Call(Text(a), env.authNow, env.authStore, env.db));
  }

  /** A new client that sends such a request is served, and connects. */
  lemma UserConnects(c: Client, calls: seq<Call>, env: Env, a: Asking)
    requires ClientOk(c, calls) && c.phase.ReadingRequest? && !c.expired
    requires c.request == "" && c.requestCapacity == MAX_BUFFER_SIZE && Serves(env, a)
    ensures Connects(c, calls, env)
  {
    hide Text, WellPut, ClientOk, ReadRequest, GrantedLast, HostPort;
    assert Roomy(c) by { Waiting(c, calls); }
    RequestRead(c, env, a);
    Understood(a);
    UserIsGranted(calls, env, a);
  }

  /** The client as it is when its target is about to be connected to. */
  ghost function Aimed(c: Client, auth: nat, a: Asking): Client
  {
    c.(request := Text(a), isHttps := a.tunnel, host := a.host, port := if a.port < 0x8000_0000 then a.port else 0,
       phase := InitializeConnection, h := c.h.(fromClient := c.h.fromClient + Text(a), auth := Some(auth)))
  }

  lemma ServedStep<C>(s: State<C>, me: C, env: Env, a: Asking)
    requires s.c.phase.ReadingRequest? && Roomy(s.c)
    requires s.c.request == "" && s.c.requestCapacity == MAX_BUFFER_SIZE && Serves(env, a)
    ensures var call := Call(Text(a), env.authNow, env.authStore, env.db);
            ReadStep(s, me, env) == InitStep(s.(c := Aimed(s.c, |s.calls|, a), calls := s.calls + [call]), me, env)
  {
    hide Text, WellPut, ReadRequest, GrantedLast, HostPort, InitStep, CStr;
    RequestRead(s.c, env, a);
    Understood(a);
    PortIsSmall(a);
    UserIsGranted(s.calls, env, a);
  }

  lemma PortIsSmall(a: Asking)
    requires WellPut(a)
    ensures a.port < 0x1_0000
  {
  }

  /** What the first event of such a client leaves, when epoll takes the socket and when not. */
  lemma ServedOrRefused<C>(s: State<C>, me: C, kind: FdKind, ev: Events, env: Env, a: Asking)
    requires KernelOk(s.k) && s.c.targetFd == -1 && s.c.phase.ReadingRequest? && !s.c.expired && Roomy(s.c)
    requires s.c.request == "" && s.c.requestCapacity == MAX_BUFFER_SIZE && Serves(env, a)
    requires env.socket >= 0 && env.socket !in s.k.open
    ensures var s' := EventStep(s, me, kind, ev, env);
            && s'.c.clientFd == s.c.clientFd && s'.c.targetFd == env.socket && !s'.c.expired
            && s'.c.slot == s.c.slot && s'.c.isHttps == a.tunnel
            && (!env.addOk ==> s'.c.phase == Closing && s'.k == s.k)
            && (env.addOk && env.dataOk ==>
                  && s'.c.phase == Connecting
                  && s'.k == s.k.Opened(env.socket).Added(env.socket, Reg(TargetFd, me, Events(false, true))))
  {
    hide Text, WellPut, Serves, ReadStep, ConnectStep, Roomy;
    ServedStep(s, me, env, a);
    var t := s.(c := Aimed(s.c, |s.calls|, a),
                calls := s.calls + [Call(Text(a), env.authNow, env.authStore, env.db)]);
    ServesOpens(s.k, env, a);
    ConnectOpens(t, env);
    ConnectKeepsFlags(t, env);
    assert s.k.Opened(env.socket).Closed(env.socket) == s.k;
  }

  lemma ServesOpens<C>(k: Kernel<C>, env: Env, a: Asking)
    requires Serves(env, a) && env.socket >= 0 && env.socket !in k.open
    ensures OpensTarget(k, env)
  {
    hide Text, WellPut;
  }

  lemma ConnectKeepsFlags<C>(s: State<C>, env: Env)
    ensures var c := ConnectStep(s, env).0.c;
            c.expired == s.c.expired && c.slot == s.c.slot && c.isHttps == s.c.isHttps && c.phase == s.c.phase
  {
    hide Sent;
  }

  // ---------- runs ----------

  lemma AndThen<C>(w: World<C>, steps: seq<Step<C>>, step: Step<C>, all: seq<Step<C>>)
    requires Possible(w, steps) && Enabled(Ran(w, steps), step) && all == steps + [step]
    ensures Possible(w, all) && Ran(w, all) == Next(Ran(w, steps), step)
  {
    hide Next, Enabled;
    OneStep(Ran(w, steps), step);
    RunOn(w, steps, [step]);
  }

  /** The world after the first client has arrived at `x`. */
  ghost function Alone<C>(c: C, x: int, now: int): World<C> {
    World(map[c := NewClient(x, now).(slot := 0)], Kernel({x}, map[x := Reg(ClientFd, c, Events(true, false))]), [])
  }

  /** The first client, at descriptor `x`. */
  lemma FirstArrival<C>(c: C, x: int, now: int)
    requires x >= 0
    ensures var steps := [Arrive(c, x, 0, now)];
            && Possible(Start<C>(), steps)
            && Ran(Start<C>(), steps) == Alone(c, x, now)
  {
    hide Next, Enabled;
    var step := Arrive(c, x, 0, now);
    FirstEnabled(c, x, now);
    OneStep(Start<C>(), step);
  }

  lemma FirstEnabled<C>(c: C, x: int, now: int)
    requires x >= 0
    ensures var step := Arrive(c, x, 0, now);
            Enabled(Start<C>(), step) && Next(Start<C>(), step) == Arrived(Start<C>(), c, x, 0, now)
  {
  }

  /** An event on a registration that names `c`, in a world that is safe. */
  lemma EventOf<C>(w: World<C>, c: C, fd: int, ev: Events, env: Env)
    requires Safe(w) && fd in w.k.regs && w.k.regs[fd].Reg? && w.k.regs[fd].owner == c
    ensures Enabled(w, Event(fd, ev, env)) && c in w.views && Roomy(w.views[c])
    ensures Next(w, Event(fd, ev, env)) == Put(w, c, EventStep(StateIn(w, c), c, w.k.regs[fd].kind, ev, env))
  {
    hide Safe, EventStep;
    EveryEventIsEnabled(w, fd, ev, env);
  }

  lemma RequestSent<C>(c: C, x: int, now: int, ev: Events, env: Env, a: Asking)
    requires x >= 0 && Serves(env, a) && env.socket >= 0 && env.socket != x
    ensures var w, step := Alone(c, x, now), Event(x, ev, env);
            && Enabled(w, step) && Safe(w) && Safe(Next(w, step)) && Next(w, step).views.Keys == {c}
            && var v, k := Next(w, step).views[c], Next(w, step).k;
            && v.clientFd == x && v.targetFd == env.socket && !v.expired && v.slot == 0 && v.isHttps == a.tunnel
            && (!env.addOk ==> v.phase == Closing && k == w.k)
            && (env.addOk && env.dataOk ==>
                  v.phase == Connecting
                  && k == w.k.Opened(env.socket).Added(env.socket, Reg(TargetFd, c, Events(false, true))))
  {
    hide Serves, Safe, EventStep, Next, Enabled;
    var w, step := Alone(c, x, now), Event(x, ev, env);
    AloneIsSafe(c, x, now);
    EventOf(w, c, x, ev, env);
    StepKeepsSafe(w, step);
    ServedOrRefused(StateIn(w, c), c, ClientFd, ev, env, a);
  }

  lemma AloneIsSafe<C>(c: C, x: int, now: int)
    requires x >= 0
    ensures Safe(Alone(c, x, now))
  {
    hide ClientOk;
    NewClientOk(x, 0, now, []);
  }

  /** A run in which a user gets through: it arrives, sends its request, its target is
      registered and connects, and bytes are forwarded from then on. */
  lemma UserGetsThrough<C>(c: C, x: int, y: int, now: int, ev: Events, env: Env, ev': Events, env': Env, a: Asking)
    requires x >= 0 && y >= 0 && x != y && Serves(env, a) && env.socket == y && env.addOk && env.dataOk
    requires !env'.socketError
    ensures var steps := [Arrive(c, x, 0, now), Event(x, ev, env), Event(y, ev', env')];
            && Possible(Start<C>(), steps) && c in Ran(Start<C>(), steps).views
            && var v := Ran(Start<C>(), steps).views[c];
            && v.phase == Forwarding && v.isHttps == a.tunnel && v.targetFd == y && TouchedTarget(v) && !v.expired
  {
    hide Serves, Safe, EventStep, Next, Enabled, Possible, Ran, Start;
    FirstArrival(c, x, now);
    RequestSent(c, x, now, ev, env, a);
    var sent := [Arrive(c, x, 0, now), Event(x, ev, env)];
    AndThen(Start<C>(), [Arrive(c, x, 0, now)], Event(x, ev, env), sent);
    var w := Next(Alone(c, x, now), Event(x, ev, env));
    EventOf(w, c, y, ev', env');
    AndThen(Start<C>(), sent, Event(y, ev', env'), [Arrive(c, x, 0, now), Event(x, ev, env), Event(y, ev', env')]);
    Connected(StateIn(w, c), c, TargetFd, ev', env');
  }

  lemma Connected<C>(s: State<C>, me: C, kind: FdKind, ev: Events, env: Env)
    requires Roomy(s.c) && s.c.phase == Connecting && !s.c.expired && !env.socketError
    ensures EventStep(s, me, kind, ev, env).c == Joined(s.c, env)
    ensures Joined(s.c, env).phase == Forwarding && Joined(s.c, env).isHttps == s.c.isHttps
    ensures Joined(s.c, env).targetFd == s.c.targetFd && Joined(s.c, env).expired == s.c.expired
  {
    hide Sent;
  }

  /** A run in which epoll refuses a target: the number of the closed socket stays with the client,
      a second client gets that number, and closing the first one closes it under the second. */
  lemma RefusalClosesAnother<C>(c: C, d: C, x: int, y: int, now: int, now': int,
                                ev: Events, env: Env, ev': Events, env': Env, a: Asking)
    requires c != d && x >= 0 && y >= 0 && x != y && Serves(env, a) && env.socket == y && !env.addOk
    ensures var steps := [Arrive(c, x, 0, now), Event(x, ev, env), Arrive(d, y, 1, now'), Event(x, ev', env')];
            && Possible(Start<C>(), steps)
            && var w := Ran(Start<C>(), steps);
            && d in w.views && w.views[d].clientFd == y && !w.views[d].expired
            && y !in w.k.open && !WorldOk(w)
  {
    hide Serves, Safe, EventStep, Next, Enabled, Possible, Ran, Start, WorldOk;
    FirstArrival(c, x, now);
    RequestSent(c, x, now, ev, env, a);
    var sent := [Arrive(c, x, 0, now), Event(x, ev, env)];
    AndThen(Start<C>(), [Arrive(c, x, 0, now)], Event(x, ev, env), sent);
    var w := Next(Alone(c, x, now), Event(x, ev, env));
    SecondArrival(w, c, d, x, y, now');
    var reused := [Arrive(c, x, 0, now), Event(x, ev, env), Arrive(d, y, 1, now')];
    AndThen(Start<C>(), sent, Arrive(d, y, 1, now'), reused);
    var w' := Arrived(w, d, y, 1, now');
    EventOf(w', c, x, ev', env');
    AndThen(Start<C>(), reused, Event(x, ev', env'),
            [Arrive(c, x, 0, now), Event(x, ev, env), Arrive(d, y, 1, now'), Event(x, ev', env')]);
    ClosesBoth(StateIn(w', c), c, ClientFd, ev', env');
    OwnersAreOpen(Next(w', Event(x, ev', env')), d);
  }

  lemma SecondArrival<C>(w: World<C>, c: C, d: C, x: int, y: int, now: int)
    requires Safe(w) && w.views.Keys == {c} && c != d && w.views[c].slot == 0 && y >= 0 && y !in w.k.open
    ensures Enabled(w, Arrive(d, y, 1, now)) && Next(w, Arrive(d, y, 1, now)) == Arrived(w, d, y, 1, now)
    ensures Safe(Arrived(w, d, y, 1, now))
  {
    hide Safe;
    assert HasSlot(w.views, 0) && !HasSlot(w.views, 1);
    StepKeepsSafe(w, Arrive(d, y, 1, now));
  }

  lemma ClosesBoth<C>(s: State<C>, me: C, kind: FdKind, ev: Events, env: Env)
    requires Roomy(s.c) && s.c.phase == Closing && !s.c.expired && s.c.targetFd != -1
    ensures s.c.targetFd !in EventStep(s, me, kind, ev, env).k.open
  {
  }

  lemma OwnersAreOpen<C>(w: World<C>, d: C)
    ensures WorldOk(w) && d in w.views && w.views[d].clientFd != -1 ==> w.views[d].clientFd in w.k.open
  {
    hide Safe, Partitioned;
    if WorldOk(w) && d in w.views {
      OwnedAreOpen(w.views, w.k, d);
    }
  }
}
