/** What one event must do to its client, said of the answers of the kernel and of the bytes
    alone: how much is read and written, when a side counts as closed, what the client is sent,
    and which clients are closed. */
module Outcomes {
  import opened CString
  import opened AuthCaches
  import opened HostHeaders
  import opened Connections
  import opened Lifecycle
  import opened LifecycleProofs
  import opened Ownership

  // ---------- the script of a loop ----------

  /** The bytes that the kernel has before it first answers otherwise. */
  function Offered(recvs: seq<RecvResult>): string {
    if recvs != [] && recvs[0].Bytes? && recvs[0].data != "" then recvs[0].data + Offered(recvs[1..]) else ""
  }

  /** That other answer; recv returns 0 for an orderly end. */
  function Ending(recvs: seq<RecvResult>): RecvResult {
    if recvs == [] then Again
    else if !recvs[0].Bytes? then recvs[0]
    else if recvs[0].data == "" then Closed
    else Ending(recvs[1..])
  }

  /** The number of bytes that the kernel accepts before it first answers otherwise. */
  function Allowed(sends: seq<SendResult>): nat {
    if sends != [] && sends[0].Accepted? && sends[0].n > 0 then sends[0].n + Allowed(sends[1..]) else 0
  }

  /** Whether that other answer is an error. */
  predicate Refuses(sends: seq<SendResult>) {
    sends != [] && if sends[0].Accepted? && sends[0].n > 0 then Refuses(sends[1..]) else !sends[0].WouldBlock?
  }

  function First(s: string, n: nat): string {
    if n <= |s| then s[..n] else s
  }

  /** A receive loop takes all that is offered and fits. It counts the peer as gone after an
      error, or an orderly end with nothing before it, or when there was no room at all. */
  lemma {:induction false} DrainIs(recvs: seq<RecvResult>, room: nat)
    ensures Drain(recvs, room).0 == First(Offered(recvs), room)
    ensures RecvCode(Drain(recvs, room)) < 0 <==>
            if |Offered(recvs)| < room then Ending(recvs).Failed? || (Ending(recvs).Closed? && Offered(recvs) == "")
            else room == 0
  {
    DrainStops(recvs, room);
  }

  lemma {:induction false} DrainStops(recvs: seq<RecvResult>, room: nat)
    ensures Drain(recvs, room).0 == First(Offered(recvs), room)
    ensures Drain(recvs, room).1 ==
            if |Offered(recvs)| >= room || Ending(recvs).Closed? then AtEnd
            else if Ending(recvs).Failed? then OnError else Blocked
    decreases |recvs|
  {
    if room > 0 && recvs != [] && recvs[0].Bytes? && recvs[0].data != "" {
      var data := recvs[0].data;
      if |data| < room {
        DrainStops(recvs[1..], room - |data|);
        assert data[..|data|] == data;
      } else {
        assert data[..room] + "" == data[..room] == First(Offered(recvs), room);
      }
    }
  }

  /** A send loop puts out all that is accepted. It counts the peer as gone when an error comes
      before the end. */
  lemma {:induction false} FlushIs(sends: seq<SendResult>, pending: string)
    ensures Flush(sends, pending).0 == First(pending, Allowed(sends))
    ensures SendCode(Flush(sends, pending)) < 0 <==> Allowed(sends) < |pending| && Refuses(sends)
    decreases |sends|
  {
    if pending != "" && sends != [] && sends[0].Accepted? && sends[0].n > 0 {
      var m := Min(sends[0].n, |pending|);
      FlushIs(sends[1..], pending[m..]);
      assert First(pending, Allowed(sends)) == pending[..m] + First(pending[m..], Allowed(sends[1..]));
    }
  }

  // ---------- forwarding ----------

  ghost predicate HangsUp(recvs: seq<RecvResult>, room: nat) {
    if |Offered(recvs)| < room then Ending(recvs).Failed? || (Ending(recvs).Closed? && Offered(recvs) == "")
    else room == 0
  }

  ghost predicate Breaks(sends: seq<SendResult>, pending: string) {
    Allowed(sends) < |pending| && Refuses(sends)
  }

  lemma PullsAre(c: Client, env: Env)
    requires Roomy(c)
    ensures var got, d := First(Offered(env.recvs), c.requestCapacity - |c.request|), PullClient(c, env);
            d == c.(request := c.request + got, h := c.h.(fromClient := c.h.fromClient + got),
                    lastActive := d.lastActive,
                    clientClosed := c.clientClosed || HangsUp(env.recvs, c.requestCapacity - |c.request|))
    ensures var got, d := First(Offered(env.recvs), c.responseCapacity - |c.response|), PullTarget(c, env);
            d == c.(response := c.response + got, h := c.h.(fromTarget := c.h.fromTarget + got),
                    lastActive := d.lastActive,
                    targetClosed := c.targetClosed || HangsUp(env.recvs, c.responseCapacity - |c.response|))
  {
    hide Drain, RecvCode, Offered, Ending, First;
    DrainIs(env.recvs, c.requestCapacity - |c.request|);
    DrainIs(env.recvs, c.responseCapacity - |c.response|);
  }

  lemma PushesAre(c: Client, env: Env)
    ensures var put, d := First(c.response, Allowed(env.sends)), PushClient(c, env);
            && put + d.response == c.response
            && d == c.(response := d.response, h := c.h.(toClient := c.h.toClient + put), lastActive := d.lastActive,
                       clientClosed := c.clientClosed || Breaks(env.sends, c.response))
    ensures var put, d := First(c.request, Allowed(env.sends)), PushTarget(c, env);
            && put + d.request == c.request
            && d == c.(request := d.request, h := c.h.(toTarget := c.h.toTarget + put), lastActive := d.lastActive,
                       targetClosed := c.targetClosed || Breaks(env.sends, c.request))
  {
    hide Flush, SendCode, Allowed, Refuses;
    FlushIs(env.sends, c.response);
    FlushIs(env.sends, c.request);
  }

  lemma NothingToWrite(sends: seq<SendResult>)
    ensures First("", Allowed(sends)) == "" && !Breaks(sends, "")
  {
  }

  /** An event on the client's socket: what it offers is read as far as there is room, and what
      waits for it is written as far as it is accepted. */
  lemma ClientEvent<C>(s: State<C>, me: C, ev: Events, env: Env)
    requires Roomy(s.c) && s.c.phase == Forwarding && !s.c.expired
    ensures var c, s' := s.c, EventStep(s, me, ClientFd, ev, env);
            var room := c.requestCapacity - |c.request|;
            var got := if ev.readable then First(Offered(env.recvs), room) else "";
            var put := if ev.writable then First(c.response, Allowed(env.sends)) else "";
            && s'.c.h == c.h.(fromClient := c.h.fromClient + got, toClient := c.h.toClient + put)
            && s'.c.request == c.request + got && put + s'.c.response == c.response
            && (s'.c.clientClosed <==>
                  || c.clientClosed
                  || (ev.readable && HangsUp(env.recvs, room)) || (ev.writable && Breaks(env.sends, c.response)))
            && s'.c == c.(request := s'.c.request, response := s'.c.response, h := s'.c.h, phase := s'.c.phase,
                          clientClosed := s'.c.clientClosed, lastActive := s'.c.lastActive)
            && s'.c.phase == (if s'.c.clientClosed && s'.c.targetClosed then Closing else Forwarding)
            && s'.k == s.k && s'.calls == s.calls
  {
    hide PullClient, PushClient, PullTarget, PushTarget, Offered, First, HangsUp, Breaks;
    var c := s.c;
    PullsAre(c, env);
    PushesAre(c, env);
    PushesAre(PullClient(c, env), env);
    NothingToWrite(env.sends);
    Unread(c);
    Unread(PullClient(c, env));
  }

  /** An event on the target's socket, likewise. */
  lemma TargetEvent<C>(s: State<C>, me: C, ev: Events, env: Env)
    requires Roomy(s.c) && s.c.phase == Forwarding && !s.c.expired
    ensures var c, s' := s.c, EventStep(s, me, TargetFd, ev, env);
            var room := c.responseCapacity - |c.response|;
            var got := if ev.readable then First(Offered(env.recvs), room) else "";
            var put := if ev.writable then First(c.request, Allowed(env.sends)) else "";
            && s'.c.h == c.h.(fromTarget := c.h.fromTarget + got, toTarget := c.h.toTarget + put)
            && s'.c.response == c.response + got && put + s'.c.request == c.request
            && (s'.c.targetClosed <==>
                  || c.targetClosed
                  || (ev.readable && HangsUp(env.recvs, room)) || (ev.writable && Breaks(env.sends, c.request)))
            && s'.c == c.(request := s'.c.request, response := s'.c.response, h := s'.c.h, phase := s'.c.phase,
                          targetClosed := s'.c.targetClosed, lastActive := s'.c.lastActive)
            && s'.c.phase == (if s'.c.clientClosed && s'.c.targetClosed then Closing else Forwarding)
            && s'.k == s.k && s'.calls == s.calls
  {
    hide PullClient, PushClient, PullTarget, PushTarget, Offered, First, HangsUp, Breaks;
    var c := s.c;
    PullsAre(c, env);
    PushesAre(c, env);
    PullsAre(PushTarget(c, env), env);
    NothingToWrite(env.sends);
    Unread(c);
    Unread(PushTarget(c, env));
  }

  lemma Unread(c: Client)
    ensures c.h.fromClient + "" == c.h.fromClient && c.h.toClient + "" == c.h.toClient
    ensures c.h.fromTarget + "" == c.h.fromTarget && c.h.toTarget + "" == c.h.toTarget
    ensures c.request + "" == c.request && c.response + "" == c.response
    ensures "" + c.request == c.request && "" + c.response == c.response
    ensures c.request[0..] == c.request && c.response[0..] == c.response
  {
  }

  /** In particular the first answers move their bytes. */
  lemma FirstAnswersMove<C>(s: State<C>, me: C, ev: Events, env: Env, data: string, n: nat)
    requires Roomy(s.c) && s.c.phase == Forwarding && !s.c.expired
    ensures ev.writable && env.sends != [] && env.sends[0] == Accepted(n) && n > 0 ==>
              && s.c.h.toClient + s.c.response[..Min(n, |s.c.response|)]
                 <= EventStep(s, me, ClientFd, ev, env).c.h.toClient
              && s.c.h.toTarget + s.c.request[..Min(n, |s.c.request|)]
                 <= EventStep(s, me, TargetFd, ev, env).c.h.toTarget
    ensures ev.readable && env.recvs != [] && env.recvs[0] == Bytes(data) && data != "" ==>
              && s.c.h.fromClient + data[..Min(|data|, s.c.requestCapacity - |s.c.request|)]
                 <= EventStep(s, me, ClientFd, ev, env).c.h.fromClient
              && s.c.h.fromTarget + data[..Min(|data|, s.c.responseCapacity - |s.c.response|)]
                 <= EventStep(s, me, TargetFd, ev, env).c.h.fromTarget
  {
    hide EventStep, HangsUp, Breaks;
    ClientEvent(s, me, ev, env);
    TargetEvent(s, me, ev, env);
  }

  // ---------- closing ----------

  /** The client, which was `c` before, is closed and expired; its descriptors are closed and
      unregistered, and no others. */
  ghost predicate Gone<C>(s: State<C>, c: Client, s': State<C>) {
    var fds := {s.c.clientFd, s.c.targetFd} - {-1};
    && s'.c == c.(phase := Closing, expired := true, clientFd := -1, targetFd := -1)
    && s'.k.open == s.k.open - fds && s'.k.regs == s.k.regs - fds
  }

  /** An event of a closing client closes it, and moves no byte. */
  lemma ClosingEvent<C>(s: State<C>, me: C, kind: FdKind, ev: Events, env: Env)
    requires Roomy(s.c) && s.c.phase == Closing && !s.c.expired
    ensures var s' := EventStep(s, me, kind, ev, env); Gone(s, s.c, s') && s'.calls == s.calls
  {
  }

  // ---------- connecting ----------

  /** A socket error closes both ends at once; the client is sent nothing. */
  lemma ConnectFails<C>(s: State<C>, me: C, kind: FdKind, ev: Events, env: Env)
    requires Roomy(s.c) && s.c.phase == Connecting && !s.c.expired && env.socketError && KernelOk(s.k)
    ensures var s' := EventStep(s, me, kind, ev, env); Gone(s, s.c, s') && s'.calls == s.calls
  {
  }

  /** Without one the client forwards: a tunnel is answered, as far as the kernel accepts it, and
      loses its input; a plain client's request stays to be sent. */
  lemma ConnectSucceeds<C>(s: State<C>, me: C, kind: FdKind, ev: Events, env: Env)
    requires Roomy(s.c) && s.c.phase == Connecting && !s.c.expired && !env.socketError
    ensures var c, c' := s.c, EventStep(s, me, kind, ev, env).c;
            && c' == c.(phase := Forwarding, response := "", request := c'.request, h := c'.h)
            && (c.isHttps ==>
                  && c'.request == ""
                  && c'.h == c.h.(established := c.h.established + 1, toClient := c'.h.toClient,
                                  greeting := c'.h.greeting, skipped := c'.h.skipped)
                  && c'.h.toClient == c.h.toClient + First("HTTP/1.1 200 Connection Established\r\n\r\n", env.answered))
            && (!c.isHttps ==> c'.request == c.request && c'.h == c.h)
  {
    var text := "HTTP/1.1 200 Connection Established\r\n\r\n";
    assert text[..|text|] == text;
  }

  /** And both ends are then watched for input and for output, when the kernel agrees. */
  lemma BothEndsWatched<C>(s: State<C>, me: C, kind: FdKind, ev: Events, env: Env)
    requires Roomy(s.c) && s.c.phase == Connecting && !s.c.expired && !env.socketError
    requires s.c.clientFd in s.k.regs && s.c.targetFd in s.k.regs && s.c.clientFd != s.c.targetFd
    ensures var k' := EventStep(s, me, kind, ev, env).k;
            && k'.open == s.k.open && k'.regs.Keys == s.k.regs.Keys
            && k'.regs[s.c.clientFd] == (if env.modClientOk
                                         then Reg(ClientFd, me, Events(true, true)) else s.k.regs[s.c.clientFd])
            && k'.regs[s.c.targetFd] == (if env.modClientOk && env.modTargetOk
                                         then Reg(TargetFd, me, Events(true, true)) else s.k.regs[s.c.targetFd])
            && (forall fd :: fd in s.k.regs && fd != s.c.clientFd && fd != s.c.targetFd ==> k'.regs[fd] == s.k.regs[fd])
  {
    hide Sent;
  }

  // ---------- reading the request ----------

  /** The capacity that the read finds: doubled when one byte is left, if memory allows. */
  function Grown(c: Client): nat {
    if |c.request| == c.requestCapacity - 1 then c.requestCapacity * 2 else c.requestCapacity
  }

  ghost predicate CanRead(c: Client, env: Env) {
    |c.request| != c.requestCapacity - 1 || env.reallocOk
  }

  function Room(c: Client): int {
    Grown(c) - |c.request|
  }

  /** The first answer is 0: the peer has shut its side down. */
  ghost predicate AtEndOfInput(env: Env) {
    env.recvs != [] && (env.recvs[0].Closed? || env.recvs[0] == Bytes(""))
  }

  /** The read takes data. */
  ghost predicate Takes(c: Client, env: Env, data: string) {
    && Roomy(c) && CanRead(c, env) && Room(c) > 0
    && env.recvs != [] && env.recvs[0].Bytes? && env.recvs[0].data != "" && data == First(env.recvs[0].data, Room(c))
  }

  ghost function AfterTaking(c: Client, data: string): Client {
    c.(requestCapacity := Grown(c), request := c.request + data, h := c.h.(fromClient := c.h.fromClient + data))
  }

  /** The request is complete when its C string has an empty line, whenever its bytes came. */
  ghost predicate Complete(text: string) {
    exists i: nat :: OccursAt(CStr(text), "\r\n\r\n", i)
  }

  /** The whole outcome of a read. */
  lemma ReadIs(c: Client, env: Env, data: string)
    requires Roomy(c)
    ensures !CanRead(c, env) ==> ReadRequest(c, env) == (c, -1)
    ensures CanRead(c, env) && Room(c) > 0 && env.recvs != [] && env.recvs[0].Failed? ==>
              ReadRequest(c, env) == (c.(requestCapacity := Grown(c)), -1)
    ensures CanRead(c, env) && Room(c) > 0 && (env.recvs == [] || env.recvs[0].Again?) ==>
              ReadRequest(c, env) == (c.(requestCapacity := Grown(c)), 0)
    ensures CanRead(c, env) && (Room(c) == 0 || AtEndOfInput(env)) ==>
              ReadRequest(c, env) == (c.(requestCapacity := Grown(c)), if c.request == "" then -1 else 0)
    ensures Takes(c, env, data) ==>
              ReadRequest(c, env) == (AfterTaking(c, data), if Complete(c.request + data) then 1 else 0)
  {
    hide RecvRequest, Recv, Complete, Takes;
    if CanRead(c, env) {
      var d := c.(requestCapacity := Grown(c));
      assert ReadRequest(c, env) == RecvRequest(d, env);
      RecvIs(d, env);
    }
    if Takes(c, env, data) {
      TakesIs(c, env, data);
    }
  }

  lemma RecvIs(d: Client, env: Env)
    requires |d.request| <= d.requestCapacity
    ensures var room := d.requestCapacity - |d.request|;
            && (room > 0 && env.recvs != [] && env.recvs[0].Failed? ==> RecvRequest(d, env) == (d, -1))
            && (room > 0 && (env.recvs == [] || env.recvs[0].Again?) ==> RecvRequest(d, env) == (d, 0))
            && (room == 0 || AtEndOfInput(env) ==> RecvRequest(d, env) == (d, if d.request == "" then -1 else 0))
  {
    hide CStr, StrStr;
  }

  lemma TakesIs(c: Client, env: Env, data: string)
    requires Takes(c, env, data)
    ensures CanRead(c, env) && ReadRequest(c, env) ==
            (AfterTaking(c, data), if Complete(c.request + data) then 1 else 0)
  {
    hide CStr, StrStr, Complete;
    CompleteIs(c.request + data);
    assert env.recvs[0].data[..|env.recvs[0].data|] == env.recvs[0].data;
  }

  lemma CompleteIs(text: string)
    ensures StrStr(CStr(text), "\r\n\r\n").Some? <==> Complete(text)
  {
    hide CStr, OccursAt;
  }

  /** A read that fails, or finds the end before any byte, closes the client. */
  lemma ReadGivesUp<C>(s: State<C>, me: C, kind: FdKind, ev: Events, env: Env)
    requires Roomy(s.c) && s.c.phase == ReadingRequest && !s.c.expired
    requires || !CanRead(s.c, env)
             || (Room(s.c) > 0 && env.recvs != [] && env.recvs[0].Failed?)
             || (s.c.request == "" && (Room(s.c) == 0 || AtEndOfInput(env)))
    ensures var s' := EventStep(s, me, kind, ev, env);
            && s'.calls == s.calls
            && Gone(s, s.c.(requestCapacity := if CanRead(s.c, env) then Grown(s.c) else s.c.requestCapacity), s')
  {
    hide ReadRequest, AuthStep, Room, CanRead, Grown;
    ReadIs(s.c, env, "");
  }

  /** One that finds nothing, or an end after some bytes, or bytes that do not complete the request,
      only keeps the bytes. */
  lemma ReadWaits<C>(s: State<C>, me: C, kind: FdKind, ev: Events, env: Env, data: string)
    requires Roomy(s.c) && s.c.phase == ReadingRequest && !s.c.expired && CanRead(s.c, env)
    ensures Room(s.c) > 0 && (env.recvs == [] || env.recvs[0].Again?) ==>
              EventStep(s, me, kind, ev, env) == s.(c := s.c.(requestCapacity := Grown(s.c)))
    ensures s.c.request != "" && (Room(s.c) == 0 || AtEndOfInput(env)) ==>
              EventStep(s, me, kind, ev, env) == s.(c := s.c.(requestCapacity := Grown(s.c)))
    ensures Takes(s.c, env, data) && !Complete(s.c.request + data) ==>
              EventStep(s, me, kind, ev, env) == s.(c := AfterTaking(s.c, data))
  {
    hide ReadRequest, AuthStep, CloseStep, Room, CanRead, Grown, Takes, Complete, AfterTaking;
    ReadIs(s.c, env, data);
  }

  // ---------- the answer to a complete request ----------

  /** The call that a complete request makes. */
  function Asked(text: string, env: Env): Call {
    Call(CStr(text), env.authNow, env.authStore, env.db)
  }

  ghost predicate Answered(calls: seq<Call>, text: string, env: Env) {
    Granted(calls + [Asked(text, env)], |calls|)
  }

  /** Refused credentials: the client is sent the 407 response, as far as the kernel accepts it,
      and is closed; nothing else is sent, and nobody is connected to. */
  lemma RequestRefused<C>(s: State<C>, me: C, kind: FdKind, ev: Events, env: Env, data: string)
    requires Roomy(s.c) && s.c.phase == ReadingRequest && !s.c.expired && Takes(s.c, env, data)
    requires Complete(s.c.request + data) && !Answered(s.calls, s.c.request + data, env)
    ensures var c, s' := s.c, EventStep(s, me, kind, ev, env);
            && Gone(s, AfterTaking(c, data).(h := s'.c.h), s')
            && s'.calls == s.calls + [Asked(c.request + data, env)]
            && s'.c.h.fromClient == c.h.fromClient + data
            && s'.c.h.toClient == c.h.toClient + First("HTTP/1.1 407 Proxy Authentication Required\r\n"
                                                       + "Proxy-Authenticate: Basic realm=\"Proxy\"\r\n"
                                                       + "Content-Length: 0\r\n"
                                                       + "Connection: close\r\n"
                                                       + "\r\n", env.answered)
            && s'.c.h.dials == c.h.dials && s'.c.h.toTarget == c.h.toTarget && s'.c.h.established == c.h.established
  {
    hide ReadRequest, Grown, Takes, Complete, Granted, CStr, AdmitStep;
    ReadIs(s.c, env, data);
    RequiredText();
    AnsweredLast(s.calls, s.c.request + data, env);
  }

  lemma RequiredText()
    ensures AUTH_REQUIRED == "HTTP/1.1 407 Proxy Authentication Required\r\n"
                             + "Proxy-Authenticate: Basic realm=\"Proxy\"\r\n"
                             + "Content-Length: 0\r\n"
                             + "Connection: close\r\n"
                             + "\r\n"
    ensures forall n: nat :: Sent(AUTH_REQUIRED, n) == First(AUTH_REQUIRED, n)
  {
    assert AUTH_REQUIRED[..|AUTH_REQUIRED|] == AUTH_REQUIRED;
  }

  lemma AnsweredLast(calls: seq<Call>, text: string, env: Env)
    ensures Answered(calls, text, env) <==> GrantedLast(calls + [Asked(text, env)])
  {
  }

  /** A granted request without a host: the client is marked for closing, and keeps its descriptor. */
  lemma RequestWithoutHost<C>(s: State<C>, me: C, kind: FdKind, ev: Events, env: Env, data: string)
    requires Roomy(s.c) && s.c.phase == ReadingRequest && !s.c.expired && Takes(s.c, env, data)
    requires Complete(s.c.request + data) && Answered(s.calls, s.c.request + data, env)
    requires HostPort(CStr(s.c.request + data)).None?
    ensures var c, s' := s.c, EventStep(s, me, kind, ev, env);
            && s'.k == s.k && s'.calls == s.calls + [Asked(c.request + data, env)]
            && s'.c == AfterTaking(c, data).(phase := Closing, isHttps := "CONNECT " <= CStr(c.request + data), h := s'.c.h)
            && s'.c.h == AfterTaking(c, data).h.(auth := Some(|s.calls|))
  {
    hide ReadRequest, Grown, Takes, Complete, Granted, CStr, HostPort, CloseStep;
    ReadIs(s.c, env, data);
    AnsweredLast(s.calls, s.c.request + data, env);
  }

  /** Whether a connection can be begun. */
  ghost predicate Begins<C>(k: Kernel<C>, env: Env) {
    env.resolved && env.socket >= 0 && env.socket !in k.open && !env.connect.Refused?
  }

  /** Whether it is there at once, and answered as a tunnel. */
  ghost predicate AnswersAtOnce<C>(k: Kernel<C>, env: Env, tunnel: bool) {
    Begins(k, env) && env.connect.Connected? && tunnel
  }

  /** The kernel with the new socket, watched for output, when epoll takes it. */
  ghost function Watched<C>(k: Kernel<C>, me: C, env: Env): Kernel<C> {
    if !Begins(k, env) || !env.addOk then k
    else Kernel(k.open + {env.socket},
                k.regs[env.socket := if env.dataOk then Reg(TargetFd, me, Events(false, true)) else NoData])
  }

  /** The history after one attempt, of which a tunnel is told. */
  ghost predicate Attempted(h: History, h': History, told: bool, answered: nat) {
    && h' == h.(dials := h.dials + 1, established := if told then h.established + 1 else h.established,
                toClient := h'.toClient, greeting := h'.greeting, skipped := h'.skipped)
    && h'.toClient == h.toClient + (if told then First("HTTP/1.1 200 Connection Established\r\n\r\n", answered) else "")
    && (!told ==> h'.greeting == h.greeting && h'.skipped == h.skipped)
  }

  /** A granted request with a host: one connection is tried, to that host. When it cannot be begun
      the client is marked for closing; when it can, its socket is kept, a tunnel whose
      connection is there at once is answered at once and loses its input, and nothing else is sent. */
  lemma RequestConnects<C>(s: State<C>, me: C, kind: FdKind, ev: Events, env: Env, data: string,
                           host: string, port: CInt)
    requires Roomy(s.c) && s.c.phase == ReadingRequest && !s.c.expired && Takes(s.c, env, data)
    requires Complete(s.c.request + data) && Answered(s.calls, s.c.request + data, env)
    requires HostPort(CStr(s.c.request + data)) == Some((host, port)) && KernelOk(s.k) && s.c.targetFd == -1
    ensures var c, s' := AfterTaking(s.c, data), EventStep(s, me, kind, ev, env);
            var tunnel := "CONNECT " <= CStr(c.request);
            var told := AnswersAtOnce(s.k, env, tunnel);
            && s'.calls == s.calls + [Asked(c.request, env)] && s'.k == Watched(s.k, me, env)
            && s'.c == c.(phase := if Begins(s.k, env) && env.addOk then Connecting else Closing,
                          host := host, port := port, isHttps := tunnel,
                          targetFd := if Begins(s.k, env) then env.socket else -1,
                          request := if told then "" else c.request, h := s'.c.h)
            && Attempted(c.h.(auth := Some(|s.calls|)), s'.c.h, told, env.answered)
  {
    hide ReadRequest, Grown, Takes, Complete, Granted, CStr, HostPort, CloseStep, InitStep, Begins, AnswersAtOnce,
         Watched, Attempted;
    ReadIs(s.c, env, data);
    AnsweredLast(s.calls, s.c.request + data, env);
    var text := CStr(s.c.request + data);
    var c := AfterTaking(s.c, data);
    var aimed := c.(phase := InitializeConnection, isHttps := "CONNECT " <= text, host := host, port := port,
                    h := c.h.(auth := Some(|s.calls|)));
    InitIs(s.(c := aimed, calls := s.calls + [Asked(s.c.request + data, env)]), me, env);
  }

  lemma InitIs<C>(s: State<C>, me: C, env: Env)
    requires KernelOk(s.k) && s.c.targetFd == -1
    ensures var c, s' := s.c, InitStep(s, me, env);
            var told := AnswersAtOnce(s.k, env, c.isHttps);
            && s'.calls == s.calls && s'.k == Watched(s.k, me, env)
            && s'.c == c.(phase := if Begins(s.k, env) && env.addOk then Connecting else Closing,
                          targetFd := if Begins(s.k, env) then env.socket else -1,
                          request := if told then "" else c.request, h := s'.c.h)
            && Attempted(c.h, s'.c.h, told, env.answered)
  {
    hide ConnectStep;
    ConnectIs(s, env);
    if Begins(s.k, env) {
      assert s.k.Opened(env.socket).Closed(env.socket) == s.k;
    }
  }

  lemma ConnectIs<C>(s: State<C>, env: Env)
    requires KernelOk(s.k) && s.c.targetFd == -1
    ensures var c, t := s.c, ConnectStep(s, env).0;
            var told := AnswersAtOnce(s.k, env, c.isHttps);
            && (ConnectStep(s, env).1 == -1 <==> !Begins(s.k, env))
            && t.calls == s.calls && t.k == (if Begins(s.k, env) then s.k.Opened(env.socket) else s.k)
            && t.c == c.(targetFd := if Begins(s.k, env) then env.socket else -1,
                         request := if told then "" else c.request, h := t.c.h)
            && Attempted(c.h, t.c.h, told, env.answered)
  {
    hide Sent;
    EstablishedText(env.answered);
    assert s.c.h.toClient + "" == s.c.h.toClient;
    if env.resolved && s.k.NewFd(env.socket) != -1 {
      assert s.k.Opened(env.socket).Closed(env.socket) == s.k;
    }
  }

  lemma EstablishedText(n: nat)
    ensures Sent(ESTABLISHED, n) == First("HTTP/1.1 200 Connection Established\r\n\r\n", n)
  {
    assert ESTABLISHED[..|ESTABLISHED|] == ESTABLISHED;
  }
}
