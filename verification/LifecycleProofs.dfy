/** What every event keeps: byte conservation, authentication before any target activity,
    ownership of descriptors, and the order of the phases. */
module LifecycleProofs {
  import opened CString
  import opened Auth
  import opened AuthCaches
  import opened HostHeaders
  import opened Connections
  import opened Lifecycle

  // ---------- bytes and authentication ----------

  /** In order and without loss: what the client sent, except what the tunnel answer discarded,
      has gone to the target or waits in the buffer; what the target sent has gone to the
      client, after what the proxy itself wrote there, or waits in the buffer. */
  ghost predicate Conserved(c: Client) {
    && c.h.skipped <= |c.h.fromClient| && c.h.fromClient[c.h.skipped..] == c.h.toTarget + c.request
    && c.h.greeting <= |c.h.toClient| && c.h.fromTarget == c.h.toClient[c.h.greeting..] + c.response
  }

  /** Call `i` granted the completed request that this client sent, which says whether it is a tunnel. */
  ghost predicate Admitted(c: Client, calls: seq<Call>) {
    match c.h.auth
    case None => false
    case Some(i) =>
      && i < |calls| && Granted(calls, i)
      && calls[i].request <= c.h.fromClient
      && StrStr(calls[i].request, "\r\n\r\n").Some?
      && (c.isHttps <==> "CONNECT " <= calls[i].request)
  }

  /** The host and port are those that the granted request names. */
  ghost predicate Directed(c: Client, calls: seq<Call>) {
    match c.h.auth
    case None => false
    case Some(i) => i < |calls| && HostPort(calls[i].request) == Some((c.host, c.port))
  }

  ghost predicate TouchedTarget(c: Client) {
    c.targetFd != -1 || c.h.toTarget != "" || c.h.fromTarget != "" || c.h.established > 0 || c.h.dials > 0
  }

  /** Nothing has been exchanged with a target yet. */
  ghost predicate Quiet(c: Client) {
    c.h.toTarget == "" && c.h.fromTarget == "" && c.response == "" && c.h.greeting == |c.h.toClient|
  }

  /** No connection has been tried, and nothing was written to the client. */
  ghost predicate Untouched(c: Client) {
    && Quiet(c) && c.h.toClient == "" && c.h.skipped == 0
    && c.targetFd == -1 && c.h.dials == 0 && c.h.established == 0
  }

  ghost predicate PhaseOk(c: Client) {
    match c.phase
    case ReadingRequest => Untouched(c) && c.h.auth.None? && !c.isHttps
    case Authenticating => Untouched(c) && c.h.auth.None? && !c.isHttps
    case InitializeConnection => Untouched(c) && c.h.auth.Some?
    case Connecting => Quiet(c) && c.targetFd != -1 && c.h.established <= 1
    case Forwarding => c.targetFd != -1
    case Closing => true
  }

  ghost predicate AuthOk(c: Client, calls: seq<Call>) {
    && (c.h.auth.Some? ==> Admitted(c, calls))
    && (TouchedTarget(c) || c.phase.InitializeConnection? ==> Directed(c, calls))
    && c.h.dials <= 1
  }

  /** A client that is no tunnel loses no byte, and once admitted gets only what its target
      sent; a tunnel is answered at most twice. */
  ghost predicate TunnelOk(c: Client) {
    && c.h.established <= 2
    && (!c.isHttps ==> c.h.skipped == 0 && c.h.established == 0 && (c.h.auth.Some? ==> c.h.greeting == 0))
  }

  ghost predicate ClientOk(c: Client, calls: seq<Call>) {
    Roomy(c) && Conserved(c) && PhaseOk(c) && AuthOk(c, calls) && TunnelOk(c)
  }

  lemma SameAdmission(c: Client, c': Client, calls: seq<Call>)
    requires c'.h.auth == c.h.auth && c.h.fromClient <= c'.h.fromClient
    requires c'.host == c.host && c'.port == c.port && c'.isHttps == c.isHttps
    ensures Admitted(c, calls) ==> Admitted(c', calls)
    ensures Directed(c, calls) ==> Directed(c', calls)
  {
  }

  ghost predicate SameTraffic(c: Client, c': Client) {
    && c'.request == c.request && c'.response == c.response
    && c'.h == c.h.(dials := c'.h.dials, established := c'.h.established, auth := c'.h.auth)
  }

  lemma SameBytes(c: Client, c': Client)
    ensures Conserved(c) && SameTraffic(c, c') ==> Conserved(c')
  {
  }

  lemma EstablishKeeps(c: Client, n: nat)
    requires Conserved(c) && Quiet(c)
    ensures Conserved(Establish(c, n)) && Quiet(Establish(c, n))
  {
    var c' := Establish(c, n);
    assert c'.h.fromClient[c'.h.skipped..] == "";
    assert c'.h.toClient[c'.h.greeting..] == "";
  }

  lemma RejectKeeps(c: Client, n: nat)
    requires Conserved(c) && Quiet(c)
    ensures Conserved(Reject(c, n)) && Quiet(Reject(c, n))
  {
    var c' := Reject(c, n);
    assert c'.h.toClient[c'.h.greeting..] == "";
  }

  lemma CloseKeepsOk<C>(s: State<C>)
    requires ClientOk(s.c, s.calls) && s.c.phase.Closing?
    ensures ClientOk(CloseStep(s).c, CloseStep(s).calls)
  {
    hide Admitted, Directed, Conserved;
    SameAdmission(s.c, CloseStep(s).c, s.calls);
    SameBytes(s.c, CloseStep(s).c);
  }

  /** What a connection attempt makes of a client: its descriptor, and the tunnel answer if
      it was sent at once. */
  ghost function Dialled(c: Client, fd: int, answered: Option<nat>): Client {
    var d := c.(targetFd := fd, h := c.h.(dials := c.h.dials + 1));
    if answered.Some? then Establish(d, answered.value) else d
  }

  lemma ConnectOutcome<C>(s: State<C>, env: Env) returns (fd: int, answered: Option<nat>)
    requires s.c.targetFd == -1
    ensures ConnectStep(s, env).0.c == Dialled(s.c, fd, answered) && ConnectStep(s, env).0.calls == s.calls
    ensures (answered.Some? ==> s.c.isHttps) && (ConnectStep(s, env).1 != -1 ==> fd != -1)
  {
    hide Establish;
    fd, answered := -1, None;
    if env.resolved && !env.connect.Refused? {
      fd := s.k.NewFd(env.socket);
    }
    if fd != -1 && env.connect.Connected? && s.c.isHttps {
      answered := Some(env.answered);
    }
  }

  lemma DialledOk(c: Client, calls: seq<Call>, fd: int, answered: Option<nat>, next: Phase)
    requires ClientOk(c, calls) && c.phase.InitializeConnection?
    requires (answered.Some? ==> c.isHttps) && (next.Closing? || (next.Connecting? && fd != -1))
    ensures ClientOk(Dialled(c, fd, answered).(phase := next), calls)
  {
    hide Admitted, Directed, Conserved, Sent;
    var d := c.(targetFd := fd, h := c.h.(dials := c.h.dials + 1));
    var c' := Dialled(c, fd, answered).(phase := next);
    SameAdmission(c, c', calls);
    SameBytes(c, d);
    if answered.Some? {
      EstablishKeeps(d, answered.value);
      SameBytes(Establish(d, answered.value), c');
    } else {
      SameBytes(d, c');
    }
    assert Roomy(c');
    assert PhaseOk(c');
    assert AuthOk(c', calls);
    assert TunnelOk(c');
  }

  lemma InitKeepsOk<C>(s: State<C>, me: C, env: Env)
    requires ClientOk(s.c, s.calls) && s.c.phase.InitializeConnection?
    ensures ClientOk(InitStep(s, me, env).c, InitStep(s, me, env).calls)
  {
    var fd, answered := ConnectOutcome(s, env);
    DialledOk(s.c, s.calls, fd, answered, Closing);
    if fd != -1 {
      DialledOk(s.c, s.calls, fd, answered, Connecting);
    }
    hide ClientOk, ConnectStep, Dialled;
  }

  lemma RejectedOk<C>(s: State<C>, calls: seq<Call>, n: nat)
    requires ClientOk(s.c, s.calls) && s.c.phase.Authenticating?
    ensures var r := CloseStep(Fail(s.(c := Reject(s.c, n), calls := calls))); ClientOk(r.c, r.calls)
  {
    RejectKeeps(s.c, n);
    var t := Fail(s.(c := Reject(s.c, n), calls := calls));
    SameBytes(Reject(s.c, n), t.c);
    assert ClientOk(t.c, t.calls) by { hide Conserved, Sent; }
    CloseKeepsOk(t);
  }

  lemma AimedOk(c: Client, calls: seq<Call>, call: Call)
    requires ClientOk(c, calls) && c.phase.Authenticating?
    requires call.request == CStr(c.request) && StrStr(call.request, "\r\n\r\n").Some? && GrantedLast(calls + [call])
    ensures var (c', found) := Aim(c, |calls|, call.request);
            ClientOk(c', calls + [call]) && c'.phase == if found then InitializeConnection else Closing
  {
    hide HostPort, StrStr, CStr, Admitted, Directed, Conserved, GrantedLast;
    AimedAdmitted(c, calls, call);
    var c' := Aim(c, |calls|, call.request).0;
    SameBytes(c, c');
    assert PhaseOk(c');
    assert AuthOk(c', calls + [call]);
    assert TunnelOk(c');
  }

  lemma AimedAdmitted(c: Client, calls: seq<Call>, call: Call)
    requires c.phase.Authenticating? && Conserved(c) && PhaseOk(c)
    requires call.request == CStr(c.request) && StrStr(call.request, "\r\n\r\n").Some? && GrantedLast(calls + [call])
    ensures Admitted(Aim(c, |calls|, call.request).0, calls + [call])
    ensures Aim(c, |calls|, call.request).1 ==> Directed(Aim(c, |calls|, call.request).0, calls + [call])
  {
    hide HostPort, StrStr, Granted, CStr, Conserved, PhaseOk;
    RequestIsInput(c);
  }

  lemma RequestIsInput(c: Client)
    requires c.phase.Authenticating? && Conserved(c) && PhaseOk(c)
    ensures c.request == c.h.fromClient
  {
    assert c.h.fromClient[0..] == c.h.fromClient;
  }

  lemma AdmitKeepsOk<C>(s: State<C>, me: C, env: Env, call: Call)
    requires ClientOk(s.c, s.calls) && s.c.phase.Authenticating?
    requires call.request == CStr(s.c.request) && StrStr(call.request, "\r\n\r\n").Some? && GrantedLast(s.calls + [call])
    ensures var t := AdmitStep(s.(calls := s.calls + [call]), me, call.request, env); ClientOk(t.c, t.calls)
  {
    hide ClientOk, Aim, InitStep;
    AimedOk(s.c, s.calls, call);
    var (c, found) := Aim(s.c, |s.calls|, call.request);
    if found {
      InitKeepsOk(s.(c := c, calls := s.calls + [call]), me, env);
    }
  }

  lemma AuthKeepsOk<C>(s: State<C>, me: C, env: Env)
    requires ClientOk(s.c, s.calls) && s.c.phase.Authenticating?
    requires StrStr(CStr(s.c.request), "\r\n\r\n").Some?
    ensures ClientOk(AuthStep(s, me, env).c, AuthStep(s, me, env).calls)
  {
    hide ClientOk, GrantedLast, CloseStep, AdmitStep, Reject;
    var call := Call(CStr(s.c.request), env.authNow, env.authStore, env.db);
    if GrantedLast(s.calls + [call]) {
      AdmitKeepsOk(s, me, env, call);
    } else {
      RejectedOk(s, s.calls + [call], env.answered);
    }
  }

  lemma GrownOk(c: Client, calls: seq<Call>, capacity: nat)
    requires ClientOk(c, calls) && capacity >= c.requestCapacity
    ensures ClientOk(c.(requestCapacity := capacity), calls)
    ensures ClientOk(c.(requestCapacity := capacity, phase := Closing), calls)
  {
    hide Admitted, Directed, Conserved;
    var c' := c.(requestCapacity := capacity);
    SameAdmission(c, c', calls);
    SameAdmission(c, c'.(phase := Closing), calls);
    SameBytes(c, c');
    SameBytes(c', c'.(phase := Closing));
  }

  lemma TakenOk(c: Client, calls: seq<Call>, data: string, next: Phase)
    requires ClientOk(c, calls) && c.phase.ReadingRequest? && |c.request| + |data| <= c.requestCapacity
    requires next == ReadingRequest || next == Authenticating || next == Closing
    ensures ClientOk(c.(request := c.request + data, h := c.h.(fromClient := c.h.fromClient + data), phase := next), calls)
  {
    var c' := c.(request := c.request + data, h := c.h.(fromClient := c.h.fromClient + data), phase := next);
    SameAdmission(c, c', calls);
    hide Admitted, Directed;
    assert c'.h.fromClient[0..] == c.h.fromClient[0..] + data;
  }

  lemma RequestOutcome(c: Client, env: Env) returns (capacity: nat, data: string)
    requires Roomy(c)
    ensures var (c', result) := ReadRequest(c, env);
            && c' == c.(requestCapacity := capacity, request := c.request + data,
                        h := c.h.(fromClient := c.h.fromClient + data))
            && (result == 1 ==> StrStr(CStr(c'.request), "\r\n\r\n").Some?)
    ensures capacity >= c.requestCapacity && |c.request| + |data| <= capacity
  {
    hide CStr, StrStr, Recv;
    var full := |c.request| + 1 == c.requestCapacity;
    capacity := if full && env.reallocOk then 2 * c.requestCapacity else c.requestCapacity;
    data := "";
    assert c.request + data == c.request && c.h.fromClient + data == c.h.fromClient;
    if !full || env.reallocOk {
      var answer := Recv(env.recvs, capacity - |c.request|);
      if answer.Bytes? {
        data := answer.data;
      }
    }
  }

  /** The terminator goes to the position after the request: past the end of the program's buffer
      exactly when the recv fills all the room that the buffer has, after growing. */
  lemma TerminatorOverruns(c: Client, env: Env)
    requires Roomy(c)
    ensures var grows := |c.request| + 1 == c.requestCapacity;
            var room := (if grows then 2 * c.requestCapacity else c.requestCapacity) - |c.request|;
            var c' := ReadRequest(c, env).0;
            (c'.request != c.request && |c'.request| >= c'.requestCapacity) <==>
            (&& (grows ==> env.reallocOk) && env.recvs != [] && env.recvs[0].Bytes?
             && |env.recvs[0].data| >= room > 0)
  {
    hide CStr, StrStr;
    var c' := ReadRequest(c, env).0;
    assert c'.request != c.request ==> |c'.request| > |c.request|;
  }

  /** And a buffer that a recv has filled never grows again: no later event completes the request. */
  lemma FullRequestIsStuck(c: Client, env: Env)
    requires |c.request| == c.requestCapacity && c.request != ""
    ensures ReadRequest(c, env) == (c, 0)
  {
  }

  lemma RequestOk(c: Client, calls: seq<Call>, env: Env)
    requires ClientOk(c, calls) && c.phase.ReadingRequest?
    ensures var (c', result) := ReadRequest(c, env);
            && ClientOk(c', calls) && ClientOk(c'.(phase := Closing), calls)
            && (result == 1 ==> StrStr(CStr(c'.request), "\r\n\r\n").Some? && ClientOk(c'.(phase := Authenticating), calls))
  {
    var capacity, data := RequestOutcome(c, env);
    GrownOk(c, calls, capacity);
    hide ClientOk, ReadRequest;
    AnyTakenOk(c.(requestCapacity := capacity), calls, data);
  }

  lemma AnyTakenOk(c: Client, calls: seq<Call>, data: string)
    requires ClientOk(c, calls) && c.phase.ReadingRequest? && |c.request| + |data| <= c.requestCapacity
    ensures var c' := c.(request := c.request + data, h := c.h.(fromClient := c.h.fromClient + data));
            ClientOk(c', calls) && ClientOk(c'.(phase := Closing), calls) && ClientOk(c'.(phase := Authenticating), calls)
  {
    hide ClientOk;
    TakenOk(c, calls, data, ReadingRequest);
    TakenOk(c, calls, data, Authenticating);
    TakenOk(c, calls, data, Closing);
  }

  lemma ReadKeepsOk<C>(s: State<C>, me: C, env: Env)
    requires ClientOk(s.c, s.calls) && s.c.phase.ReadingRequest?
    ensures ClientOk(ReadStep(s, me, env).c, ReadStep(s, me, env).calls)
  {
    RequestOk(s.c, s.calls, env);
    assert |s.c.request| <= s.c.requestCapacity;
    hide ClientOk, CloseStep, AuthStep, ReadRequest;
    var (c, result) := ReadRequest(s.c, env);
    if result < 0 {
      CloseKeepsOk(Fail(s.(c := c)));
    } else if result == 1 {
      AuthKeepsOk(s.(c := c.(phase := Authenticating)), me, env);
    }
  }

  lemma HungUpOk(c: Client, calls: seq<Call>)
    requires ClientOk(c, calls) && c.phase.Connecting?
    ensures ClientOk(c.(targetFd := -1, phase := Closing), calls)
  {
    hide Admitted, Directed, Conserved, Quiet;
    var c' := c.(targetFd := -1, phase := Closing);
    SameAdmission(c, c', calls);
    SameBytes(c, c');
  }

  lemma JoinedOk(c: Client, calls: seq<Call>, env: Env)
    requires ClientOk(c, calls) && c.phase.Connecting?
    ensures ClientOk(Joined(c, env), calls)
  {
    hide Conserved, Admitted, Directed, Sent;
    EstablishKeeps(c, env.answered);
    SameAdmission(c, Joined(c, env), calls);
    SameBytes(if c.isHttps then Establish(c, env.answered) else c, Joined(c, env));
  }

  lemma ConnectingKeepsOk<C>(s: State<C>, me: C, env: Env)
    requires ClientOk(s.c, s.calls) && s.c.phase.Connecting?
    ensures ClientOk(ConnectingStep(s, me, env).c, ConnectingStep(s, me, env).calls)
  {
    hide ClientOk, CloseStep, Joined;
    HungUpOk(s.c, s.calls);
    JoinedOk(s.c, s.calls, env);
    CloseKeepsOk(Fail(s.(c := s.c.(targetFd := -1), k := s.k.Closed(s.c.targetFd))));
  }

  lemma PullClientKeeps(c: Client, env: Env)
    requires Roomy(c) && Conserved(c)
    ensures Conserved(PullClient(c, env)) && Roomy(PullClient(c, env))
  {
    hide Drain, RecvCode;
    var got := Drain(env.recvs, c.requestCapacity - |c.request|).0;
    assert (c.h.fromClient + got)[c.h.skipped..] == c.h.fromClient[c.h.skipped..] + got;
  }

  lemma PushTargetKeeps(c: Client, env: Env)
    requires Roomy(c) && Conserved(c)
    ensures Conserved(PushTarget(c, env)) && Roomy(PushTarget(c, env))
  {
    hide Flush, SendCode;
    var sent := Flush(env.sends, c.request).0;
    assert sent + c.request[|sent|..] == c.request;
  }

  lemma PullTargetKeeps(c: Client, env: Env)
    requires Roomy(c) && Conserved(c)
    ensures Conserved(PullTarget(c, env)) && Roomy(PullTarget(c, env))
  {
  }

  lemma Regroup(a: string, b: string, c: string)
    ensures a + (b + c) == a + b + c
  {
  }

  lemma PushClientKeeps(c: Client, env: Env)
    requires Roomy(c) && Conserved(c)
    ensures Conserved(PushClient(c, env)) && Roomy(PushClient(c, env))
  {
    hide Flush, SendCode;
    var sent := Flush(env.sends, c.response).0;
    var before, rest := c.h.toClient[c.h.greeting..], c.response[|sent|..];
    assert sent + rest == c.response;
    assert (c.h.toClient + sent)[c.h.greeting..] == before + sent;
    Regroup(before, sent, rest);
  }

  /** What forwarding leaves alone: everything but the bytes, the flags and the clock. */
  ghost predicate OnlyMoved(c: Client, c': Client) {
    && c'.clientFd == c.clientFd && c'.targetFd == c.targetFd && c'.expired == c.expired && c'.slot == c.slot
    && c'.isHttps == c.isHttps && c'.host == c.host && c'.port == c.port
    && c'.requestCapacity == c.requestCapacity && c'.responseCapacity == c.responseCapacity
    && c'.h.skipped == c.h.skipped && c'.h.greeting == c.h.greeting && c'.h.established == c.h.established
    && c'.h.dials == c.h.dials && c'.h.auth == c.h.auth
    && c.h.fromClient <= c'.h.fromClient && c.h.toTarget <= c'.h.toTarget
    && c.h.fromTarget <= c'.h.fromTarget && c.h.toClient <= c'.h.toClient
    && (c.clientClosed ==> c'.clientClosed) && (c.targetClosed ==> c'.targetClosed)
  }

  /** Forwarding conserves the bytes of both directions, through partial sends, errors,
      half-closes and full buffers. */
  lemma ForwardConserves(c: Client, kind: FdKind, ev: Events, env: Env)
    requires Roomy(c) && Conserved(c)
    ensures Conserved(ForwardStep(c, kind, ev, env)) && Roomy(ForwardStep(c, kind, ev, env))
  {
    hide Conserved, PullClient, PushClient, PullTarget, PushTarget;
    PullClientKeeps(c, env);
    PushClientKeeps(c, env);
    PushClientKeeps(PullClient(c, env), env);
    PushTargetKeeps(c, env);
    PullTargetKeeps(c, env);
    PullTargetKeeps(PushTarget(c, env), env);
    SameBytesClosing();
  }

  lemma SameBytesClosing()
    ensures forall c: Client :: Conserved(c) ==> Conserved(c.(phase := Closing))
  {
  }

  lemma EachOnlyMoves(c: Client, env: Env)
    requires Roomy(c)
    ensures OnlyMoved(c, PullClient(c, env)) && OnlyMoved(c, PushClient(c, env))
    ensures OnlyMoved(c, PullTarget(c, env)) && OnlyMoved(c, PushTarget(c, env))
    ensures PullClient(c, env).phase == PushClient(c, env).phase == c.phase
    ensures PullTarget(c, env).phase == PushTarget(c, env).phase == c.phase
    ensures Roomy(PullClient(c, env)) && Roomy(PushTarget(c, env))
  {
  }

  lemma OnlyMovedOn(a: Client, b: Client, c: Client)
    ensures OnlyMoved(a, b) && OnlyMoved(b, c) ==> OnlyMoved(a, c)
    ensures OnlyMoved(a, a) && OnlyMoved(a, a.(phase := Closing))
  {
  }

  lemma ForwardedOnlyMoves(c: Client, kind: FdKind, ev: Events, env: Env)
    requires Roomy(c)
    ensures OnlyMoved(c, Forwarded(c, kind, ev, env)) && Forwarded(c, kind, ev, env).phase == c.phase
  {
    hide OnlyMoved, PullClient, PushClient, PullTarget, PushTarget;
    EachOnlyMoves(c, env);
    OnlyMovedOn(c, c, c);
    if kind.ClientFd? {
      EachOnlyMoves(PullClient(c, env), env);
      OnlyMovedOn(c, PullClient(c, env), Forwarded(c, kind, ev, env));
    } else {
      EachOnlyMoves(PushTarget(c, env), env);
      OnlyMovedOn(c, PushTarget(c, env), Forwarded(c, kind, ev, env));
    }
  }

  lemma ForwardOnlyMoves(c: Client, kind: FdKind, ev: Events, env: Env)
    requires Roomy(c)
    ensures OnlyMoved(c, ForwardStep(c, kind, ev, env))
    ensures ForwardStep(c, kind, ev, env).phase == c.phase || ForwardStep(c, kind, ev, env).phase == Closing
  {
    hide OnlyMoved, Forwarded, Roomy;
    var moved := Forwarded(c, kind, ev, env);
    ForwardedOnlyMoves(c, kind, ev, env);
    OnlyMovedOn(moved, moved, moved);
    OnlyMovedOn(c, moved, moved.(phase := Closing));
  }

  /** While both sides are open, a transfer at time `t` sets the clock exactly when it moves a byte. */
  ghost predicate Timed(c: Client, c': Client, t: int) {
    && (c.clientClosed ==> c'.clientClosed) && (c.targetClosed ==> c'.targetClosed)
    && (!c'.clientClosed && !c'.targetClosed ==> c'.lastActive == if c'.h == c.h then c.lastActive else t)
  }

  lemma NothingAdded(a: string, b: string)
    ensures a + b == a <==> b == ""
  {
    assert |a + b| == |a| + |b|;
  }

  lemma PullsTimed(c: Client, env: Env)
    requires Roomy(c)
    ensures Timed(c, PullClient(c, env), env.recvTime) && Timed(c, PullTarget(c, env), env.recvTime)
    ensures PullClient(c, env).h == c.h.(fromClient := PullClient(c, env).h.fromClient)
    ensures PullTarget(c, env).h == c.h.(fromTarget := PullTarget(c, env).h.fromTarget)
  {
    hide Drain;
    NothingAdded(c.h.fromClient, Drain(env.recvs, c.requestCapacity - |c.request|).0);
    NothingAdded(c.h.fromTarget, Drain(env.recvs, c.responseCapacity - |c.response|).0);
  }

  lemma PushesTimed(c: Client, env: Env)
    ensures Timed(c, PushClient(c, env), env.sendTime) && Timed(c, PushTarget(c, env), env.sendTime)
    ensures PushClient(c, env).h == c.h.(toClient := PushClient(c, env).h.toClient)
    ensures PushTarget(c, env).h == c.h.(toTarget := PushTarget(c, env).h.toTarget)
  {
    hide Flush;
    NothingAdded(c.h.toClient, Flush(env.sends, c.response).0);
    NothingAdded(c.h.toTarget, Flush(env.sends, c.request).0);
  }

  /** While both sides are open, the clock of a client is the time of its last event that moved
      a byte: of the later transfer of that event, where both of its transfers did. */
  lemma TrafficKeepsAwake(c: Client, kind: FdKind, ev: Events, env: Env)
    requires Roomy(c)
    ensures var c' := ForwardStep(c, kind, ev, env);
            !c'.clientClosed && !c'.targetClosed ==>
              c'.lastActive ==
                if kind.ClientFd? then
                  if c'.h.toClient != c.h.toClient then env.sendTime
                  else if c'.h.fromClient != c.h.fromClient then env.recvTime
                  else c.lastActive
                else
                  if c'.h.fromTarget != c.h.fromTarget then env.recvTime
                  else if c'.h.toTarget != c.h.toTarget then env.sendTime
                  else c.lastActive
  {
    hide PullClient, PushClient, PullTarget, PushTarget;
    PullsTimed(c, env);
    PushesTimed(c, env);
    if kind.ClientFd? {
      PushesTimed(PullClient(c, env), env);
    } else {
      EachOnlyMoves(c, env);
      PullsTimed(PushTarget(c, env), env);
    }
  }

  lemma ForwardKeepsOk(c: Client, calls: seq<Call>, kind: FdKind, ev: Events, env: Env)
    requires ClientOk(c, calls) && c.phase.Forwarding?
    ensures ClientOk(ForwardStep(c, kind, ev, env), calls)
  {
    hide ForwardStep, Conserved, Admitted, Directed;
    ForwardConserves(c, kind, ev, env);
    ForwardOnlyMoves(c, kind, ev, env);
    SameAdmission(c, ForwardStep(c, kind, ev, env), calls);
  }

  /** Every event, with every answer of the kernel and of the user table, keeps all of it. */
  lemma EventKeepsOk<C>(s: State<C>, me: C, kind: FdKind, ev: Events, env: Env)
    requires ClientOk(s.c, s.calls)
    requires s.c.phase.Authenticating? ==> StrStr(CStr(s.c.request), "\r\n\r\n").Some?
    ensures ClientOk(EventStep(s, me, kind, ev, env).c, EventStep(s, me, kind, ev, env).calls)
  {
    if !s.c.expired {
      match s.c.phase
      case ReadingRequest => ReadKeepsOk(s, me, env);
      case Authenticating => AuthKeepsOk(s, me, env);
      case InitializeConnection => InitKeepsOk(s, me, env);
      case Connecting => ConnectingKeepsOk(s, me, env);
      case Forwarding => ForwardKeepsOk(s.c, s.calls, kind, ev, env);
      case Closing => CloseKeepsOk(s);
    }
  }

  // ---------- the order of the phases ----------

  /** A client only moves forward: phases, histories and the marks on it never go back, and
      once it forwards the proxy itself writes nothing and discards nothing any more. */
  ghost predicate Advances(c: Client, c': Client) {
    && Rank(c.phase) <= Rank(c'.phase)
    && (c.expired ==> c'.expired) && c'.slot == c.slot
    && c.h.fromClient <= c'.h.fromClient && c.h.toTarget <= c'.h.toTarget
    && c.h.fromTarget <= c'.h.fromTarget && c.h.toClient <= c'.h.toClient
    && c.h.dials <= c'.h.dials && c.h.established <= c'.h.established
    && (c.h.auth.Some? ==> c'.h.auth == c.h.auth)
    && (Rank(c.phase) >= 4 ==>
          c'.h.skipped == c.h.skipped && c'.h.greeting == c.h.greeting && c'.h.established == c.h.established)
  }

  lemma AdvancesTransitive(a: Client, b: Client, c: Client)
    ensures Advances(a, b) && Advances(b, c) ==> Advances(a, c)
  {
  }

  lemma InitAdvances<C>(s: State<C>, me: C, env: Env)
    requires Rank(s.c.phase) <= 3 && s.c.targetFd == -1
    ensures Advances(s.c, InitStep(s, me, env).c) && InitStep(s, me, env).calls == s.calls
  {
    var fd, answered := ConnectOutcome(s, env);
    assert Advances(s.c, Dialled(s.c, fd, answered).(phase := Connecting)) by { hide Sent; }
    assert Advances(s.c, Dialled(s.c, fd, answered).(phase := Closing)) by { hide Sent; }
    hide ConnectStep, Dialled, Advances;
  }

  lemma RejectedAdvances<C>(s: State<C>, n: nat)
    requires Rank(s.c.phase) <= 3
    ensures Advances(s.c, CloseStep(Fail(s.(c := Reject(s.c, n)))).c)
  {
    hide Sent;
  }

  lemma AimAdvances(c: Client, auth: nat, request: string)
    requires c.h.auth.None? && Rank(c.phase) <= 1
    ensures var (c', found) := Aim(c, auth, request);
            Advances(c, c') && c'.targetFd == c.targetFd && c'.phase == if found then InitializeConnection else Closing
  {
    hide HostPort;
  }

  lemma AdmitAdvances<C>(s: State<C>, me: C, request: string, env: Env)
    requires Rank(s.c.phase) <= 1 && s.c.targetFd == -1 && s.c.h.auth.None? && s.calls != []
    ensures Advances(s.c, AdmitStep(s, me, request, env).c) && AdmitStep(s, me, request, env).calls == s.calls
  {
    hide InitStep, Aim, Advances;
    AimAdvances(s.c, |s.calls| - 1, request);
    var (c, found) := Aim(s.c, |s.calls| - 1, request);
    if found {
      InitAdvances(s.(c := c), me, env);
      AdvancesTransitive(s.c, c, InitStep(s.(c := c), me, env).c);
    }
  }

  lemma AuthAdvances<C>(s: State<C>, me: C, env: Env)
    requires Rank(s.c.phase) <= 1 && s.c.targetFd == -1 && s.c.h.auth.None?
    ensures Advances(s.c, AuthStep(s, me, env).c)
    ensures AuthStep(s, me, env).calls == s.calls + [Call(CStr(s.c.request), env.authNow, env.authStore, env.db)]
  {
    hide AdmitStep, GrantedLast, Reject, Advances;
    var asked := s.(calls := s.calls + [Call(CStr(s.c.request), env.authNow, env.authStore, env.db)]);
    if GrantedLast(asked.calls) {
      AdmitAdvances(asked, me, CStr(s.c.request), env);
    } else {
      RejectedAdvances(asked, env.answered);
    }
  }

  lemma ReadAdvances<C>(s: State<C>, me: C, env: Env)
    requires Rank(s.c.phase) == 0 && s.c.targetFd == -1 && s.c.h.auth.None? && Roomy(s.c)
    ensures Advances(s.c, ReadStep(s, me, env).c) && s.calls <= ReadStep(s, me, env).calls
  {
    hide ReadRequest, AuthStep;
    var capacity, data := RequestOutcome(s.c, env);
    var (c, result) := ReadRequest(s.c, env);
    assert Advances(s.c, c);
    if result == 1 {
      var t := s.(c := c.(phase := Authenticating));
      AuthAdvances(t, me, env);
      AdvancesTransitive(s.c, t.c, AuthStep(t, me, env).c);
    }
  }

  /** Every event moves its client forward, and none moves an expired one at all. */
  lemma EventAdvances<C>(s: State<C>, me: C, kind: FdKind, ev: Events, env: Env)
    requires ClientOk(s.c, s.calls)
    ensures Advances(s.c, EventStep(s, me, kind, ev, env).c)
    ensures s.calls <= EventStep(s, me, kind, ev, env).calls
    ensures s.c.expired ==> EventStep(s, me, kind, ev, env) == s
  {
    hide ReadStep, AuthStep, InitStep, ForwardStep, Conserved, Admitted, Directed, Sent;
    if !s.c.expired {
      match s.c.phase
      case ReadingRequest => ReadAdvances(s, me, env);
      case Authenticating => AuthAdvances(s, me, env);
      case InitializeConnection => InitAdvances(s, me, env);
      case Connecting =>
      case Forwarding => ForwardOnlyMoves(s.c, kind, ev, env);
      case Closing =>
    }
  }

  /** The tunnel answer is the only thing that discards input: once forwarding, a client's
      bytes are counted from the moment it began, and no event changes the mark. */
  lemma TunnelMark<C>(s: State<C>, me: C, env: Env)
    requires !env.socketError
    ensures var c := ConnectingStep(s, me, env).c;
            && c.phase == Forwarding
            && c.h.skipped == (if s.c.isHttps then |c.h.fromClient| else s.c.h.skipped)
            && c.h.established == s.c.h.established + (if s.c.isHttps then 1 else 0)
  {
  }

  /** What is known of a client stays known as more calls are made. */
  lemma OkStays(c: Client, calls: seq<Call>, calls': seq<Call>)
    ensures ClientOk(c, calls) && calls <= calls' ==> ClientOk(c, calls')
  {
    hide Roomy, Conserved, PhaseOk, TunnelOk, Granted;
    AdmissionStays(c, calls, calls');
  }

  lemma AdmissionStays(c: Client, calls: seq<Call>, calls': seq<Call>)
    ensures Admitted(c, calls) && calls <= calls' ==> Admitted(c, calls')
    ensures Directed(c, calls) && calls <= calls' ==> Directed(c, calls')
  {
    hide HostPort, StrStr, Grants, After;
    if c.h.auth.Some? && c.h.auth.value < |calls| && calls <= calls' {
      assert calls'[..c.h.auth.value] == calls[..c.h.auth.value];
    }
  }

  /** The phases in which a client waits for an event. */
  ghost predicate Settled(c: Client) {
    c.phase != Authenticating && c.phase != InitializeConnection
  }

  /** No event leaves a client half way through the handlers. */
  lemma EventSettles<C>(s: State<C>, me: C, kind: FdKind, ev: Events, env: Env)
    requires ClientOk(s.c, s.calls) && Settled(s.c)
    ensures Settled(EventStep(s, me, kind, ev, env).c)
  {
    hide ReadStep, ForwardStep, Establish, Conserved, AuthOk, TunnelOk, PhaseOk;
    ReadSettles(s, me, env);
    ForwardOnlyMoves(s.c, kind, ev, env);
  }

  lemma ReadSettles<C>(s: State<C>, me: C, env: Env)
    requires Roomy(s.c) && (s.c.phase.ReadingRequest? || Settled(s.c))
    ensures Settled(ReadStep(s, me, env).c)
  {
    hide ReadRequest, AuthStep, CloseStep;
    RequestStays(s.c, env);
    var (c, result) := ReadRequest(s.c, env);
    AuthSettles(s.(c := c.(phase := Authenticating)), me, env);
    ClosedSettles(Fail(s.(c := c)));
  }

  lemma AuthSettles<C>(s: State<C>, me: C, env: Env)
    ensures Settled(AuthStep(s, me, env).c)
  {
    hide ConnectStep, HostPort, GrantedLast, Reject;
  }

  lemma ClosedSettles<C>(s: State<C>)
    ensures CloseStep(s).c.phase == s.c.phase
  {
  }

  lemma RequestStays(c: Client, env: Env)
    requires Roomy(c)
    ensures ReadRequest(c, env).0.phase == c.phase
  {
    hide CStr, StrStr;
  }
}
