/** What one epoll event does to a client, as a function of values: the specification of
    the handlers. Kernel calls are answered by a script, `Env`, so that every outcome of
    every call is covered by quantifying over it. */
module Lifecycle {
  import opened CString
  import opened Auth
  import opened AuthCaches
  import opened HostHeaders
  import opened Connections

  const MAX_BUFFER_SIZE: nat := 4096

  const ESTABLISHED: string := "HTTP/1.1 200 Connection Established\r\n\r\n"

  const AUTH_REQUIRED: string :=
    "HTTP/1.1 407 Proxy Authentication Required\r\n"
    + "Proxy-Authenticate: Basic realm=\"Proxy\"\r\n"
    + "Content-Length: 0\r\n"
    + "Connection: close\r\n"
    + "\r\n"

  datatype Phase = ReadingRequest | Authenticating | InitializeConnection | Connecting | Forwarding | Closing

  function Rank(p: Phase): nat {
    match p
    case ReadingRequest => 0
    case Authenticating => 1
    case InitializeConnection => 2
    case Connecting => 3
    case Forwarding => 4
    case Closing => 5
  }

  // ---------- the kernel ----------

  datatype FdKind = ClientFd | TargetFd

  datatype Events = Events(readable: bool, writable: bool)

  /** An epoll registration: the data pointer it carries, null if its allocation failed. */
  datatype Reg<C> = NoData | Reg(kind: FdKind, owner: C, events: Events)

  /** Open client and target sockets, and the epoll registrations. Closing a descriptor
      removes its registration; removing one that does not exist is harmless. */
  datatype Kernel<C> = Kernel(open: set<int>, regs: map<int, Reg<C>>) {
    /** The kernel hands out no negative descriptor and none that is open. */
    function NewFd(want: int): int {
      if want < 0 || want in open then -1 else want
    }

    function Opened(fd: int): Kernel<C> {
      Kernel(open + {fd}, regs)
    }

    function Closed(fd: int): Kernel<C> {
      Kernel(open - {fd}, regs - {fd})
    }

    function Added(fd: int, reg: Reg<C>): Kernel<C> {
      Kernel(open, regs[fd := reg])
    }

    function Deleted(fd: int): Kernel<C> {
      Kernel(open, regs - {fd})
    }

    /** EPOLL_CTL_MOD fails when there is no registration to change. */
    function Modified(fd: int, reg: Reg<C>, ok: bool): Kernel<C> {
      if ok && fd in regs then Kernel(open, regs[fd := reg]) else this
    }
  }

  datatype ConnectResult = Connected | InProgress | Refused

  /** What the outside world answers during one event. */
  datatype Env = Env(
    reallocOk: bool, recvs: seq<RecvResult>, sends: seq<SendResult>, recvTime: int, sendTime: int,
    authNow: int, authStore: int, db: Db, answered: nat,
    resolved: bool, socket: int, connect: ConnectResult, dataOk: bool, addOk: bool,
    socketError: bool, modClientOk: bool, modTargetOk: bool)

  // ---------- a client ----------

  /** What has happened to a client's bytes: everything received from and sent to either side,
      how much of the input the tunnel answer discarded, and how much of the output came from
      the proxy itself; and the call that granted access, counted from the start of the run. */
  datatype History = History(
    fromClient: string, toTarget: string, skipped: nat,
    fromTarget: string, toClient: string, greeting: nat,
    established: nat, dials: nat, auth: Option<nat>)

  const NOTHING: History := History("", "", 0, "", "", 0, 0, 0, None)

  datatype Client = Client(
    clientFd: int, targetFd: int, clientClosed: bool, targetClosed: bool,
    slot: int, lastActive: int, expired: bool,
    request: string, requestCapacity: nat, response: string, responseCapacity: nat,
    phase: Phase, host: string, port: CInt, isHttps: bool, h: History)

  /** A new client, as `create_client_state` leaves it; its slot is still to come. */
  function NewClient(fd: int, now: int): Client {
    Client(fd, -1, false, false, 0, now, false, "", MAX_BUFFER_SIZE, "", MAX_BUFFER_SIZE,
           ReadingRequest, "", 80, false, NOTHING)
  }

  /** One client and what it touches. */
  datatype State<C> = State(c: Client, k: Kernel<C>, calls: seq<Call>)

  function Fds(c: Client): set<int> {
    {c.clientFd, c.targetFd} - {-1}
  }

  // ---------- the handlers ----------

  function Sent(text: string, n: nat): string {
    text[..Min(n, |text|)]
  }

  /** `send_https_established`, and `request_len = 0`. */
  function Establish(c: Client, n: nat): Client {
    c.(request := "",
       h := c.h.(toClient := c.h.toClient + Sent(ESTABLISHED, n),
                 greeting := |c.h.toClient| + |Sent(ESTABLISHED, n)|,
                 established := c.h.established + 1,
                 skipped := |c.h.fromClient|))
  }

  /** `send_proxy_auth_required`. */
  function Reject(c: Client, n: nat): Client {
    c.(h := c.h.(toClient := c.h.toClient + Sent(AUTH_REQUIRED, n),
                 greeting := |c.h.toClient| + |Sent(AUTH_REQUIRED, n)|))
  }

  /** `handle_closing`. */
  function CloseStep<C>(s: State<C>): State<C> {
    var k1 := if s.c.clientFd == -1 then s.k else s.k.Deleted(s.c.clientFd).Closed(s.c.clientFd);
    var k2 := if s.c.targetFd == -1 then k1 else k1.Deleted(s.c.targetFd).Closed(s.c.targetFd);
    s.(c := s.c.(expired := true, clientFd := -1, targetFd := -1), k := k2)
  }

  function Fail<C>(s: State<C>): State<C> {
    s.(c := s.c.(phase := Closing))
  }

  /** `connection_connect`: the state it leaves, and what it returns. */
  function ConnectStep<C>(s: State<C>, env: Env): (State<C>, int) {
    var s0 := s.(c := s.c.(h := s.c.h.(dials := s.c.h.dials + 1)));
    if !env.resolved then (s0, -1)
    else
      var fd := s.k.NewFd(env.socket);
      var s1 := s0.(c := s0.c.(targetFd := fd));
      if fd == -1 then (s1, -1)
      else
        var s2 := s1.(k := s.k.Opened(fd));
        match env.connect
        case InProgress => (s2, 0)
        case Refused => (s2.(c := s2.c.(targetFd := -1), k := s2.k.Closed(fd)), -1)
        case Connected => (if s.c.isHttps then s2.(c := Establish(s2.c, env.answered)) else s2, 1)
  }

  /** `handle_initialize_connection`: a failing EPOLL_CTL_ADD closes the descriptor and keeps its number. */
  function InitStep<C>(s: State<C>, me: C, env: Env): State<C> {
    var (t, result) := ConnectStep(s, env);
    if result == -1 then Fail(t)
    else if !env.addOk then Fail(t.(k := t.k.Closed(t.c.targetFd)))
    else
      var reg := if env.dataOk then Reg(TargetFd, me, Events(false, true)) else NoData;
      t.(c := t.c.(phase := Connecting), k := t.k.Added(t.c.targetFd, reg))
  }

  /** `handle_authenticating`: the request is the C string in the buffer. */
  ghost function AuthStep<C>(s: State<C>, me: C, env: Env): State<C> {
    var request := CStr(s.c.request);
    var asked := s.(calls := s.calls + [Call(request, env.authNow, env.authStore, env.db)]);
    if GrantedLast(asked.calls) then AdmitStep(asked, me, request, env)
    else CloseStep(Fail(asked.(c := Reject(s.c, env.answered))))
  }

  /** What follows a granted request. */
  ghost function AdmitStep<C>(s: State<C>, me: C, request: string, env: Env): State<C>
    requires s.calls != []
  {
    var (c, found) := Aim(s.c, |s.calls| - 1, request);
    if found then InitStep(s.(c := c), me, env) else s.(c := c)
  }

  /** The kind of the request and its host; `auth` points at the call that granted it. */
  ghost function Aim(c: Client, auth: nat, request: string): (Client, bool) {
    var c' := c.(isHttps := "CONNECT " <= request, h := c.h.(auth := Some(auth)));
    match HostPort(request)
    case None => (c'.(phase := Closing), false)
    case Some((host, port)) => (c'.(host := host, port := port, phase := InitializeConnection), true)
  }

  ghost predicate GrantedLast(calls: seq<Call>)
    requires calls != []
  {
    Granted(calls, |calls| - 1)
  }

  /** `read_request_nonblocking`: -1 to give up, 1 when the empty line has arrived, else 0. */
  function ReadRequest(c: Client, env: Env): (Client, int)
    requires |c.request| <= c.requestCapacity
  {
    if |c.request| + 1 != c.requestCapacity then RecvRequest(c, env)
    else if !env.reallocOk then (c, -1)
    else RecvRequest(c.(requestCapacity := 2 * c.requestCapacity), env)
  }

  function RecvRequest(c: Client, env: Env): (Client, int)
    requires |c.request| <= c.requestCapacity
  {
    match Recv(env.recvs, c.requestCapacity - |c.request|)
    case Again => (c, 0)
    case Failed => (c, -1)
    case Closed => (c, if c.request == "" then -1 else 0)
    case Bytes(data) =>
      var c' := c.(request := c.request + data, h := c.h.(fromClient := c.h.fromClient + data));
      (c', if StrStr(CStr(c'.request), "\r\n\r\n").Some? then 1 else 0)
  }

  /** `handle_reading_request`. */
  ghost function ReadStep<C>(s: State<C>, me: C, env: Env): State<C>
    requires |s.c.request| <= s.c.requestCapacity
  {
    var (c, result) := ReadRequest(s.c, env);
    if result < 0 then CloseStep(Fail(s.(c := c)))
    else if result == 1 then AuthStep(s.(c := c.(phase := Authenticating)), me, env)
    else s.(c := c)
  }

  /** `register_forwarding_fds`: the first failure ends it. */
  function ForwardingRegs<C>(k: Kernel<C>, c: Client, me: C, env: Env): Kernel<C> {
    if !env.modClientOk || c.clientFd !in k.regs then k
    else k.Modified(c.clientFd, Reg(ClientFd, me, Events(true, true)), true)
          .Modified(c.targetFd, Reg(TargetFd, me, Events(true, true)), env.modTargetOk)
  }

  /** The client as forwarding begins. */
  function Joined(c: Client, env: Env): Client {
    (if c.isHttps then Establish(c, env.answered) else c).(response := "", phase := Forwarding)
  }

  /** `handle_connecting`. */
  function ConnectingStep<C>(s: State<C>, me: C, env: Env): State<C> {
    if env.socketError then
      CloseStep(Fail(s.(c := s.c.(targetFd := -1), k := s.k.Closed(s.c.targetFd))))
    else
      s.(c := Joined(s.c, env), k := ForwardingRegs(s.k, Joined(s.c, env), me, env))
  }

  function PullClient(c: Client, env: Env): Client
    requires |c.request| <= c.requestCapacity
  {
    var got := Drain(env.recvs, c.requestCapacity - |c.request|);
    c.(request := c.request + got.0, h := c.h.(fromClient := c.h.fromClient + got.0),
       clientClosed := c.clientClosed || RecvCode(got) < 0,
       lastActive := if RecvCode(got) > 0 then env.recvTime else c.lastActive)
  }

  function PushTarget(c: Client, env: Env): Client {
    var sent := Flush(env.sends, c.request);
    c.(request := c.request[|sent.0|..], h := c.h.(toTarget := c.h.toTarget + sent.0),
       targetClosed := c.targetClosed || SendCode(sent) < 0,
       lastActive := if SendCode(sent) > 0 then env.sendTime else c.lastActive)
  }

  function PullTarget(c: Client, env: Env): Client
    requires |c.response| <= c.responseCapacity
  {
    var got := Drain(env.recvs, c.responseCapacity - |c.response|);
    c.(response := c.response + got.0, h := c.h.(fromTarget := c.h.fromTarget + got.0),
       targetClosed := c.targetClosed || RecvCode(got) < 0,
       lastActive := if RecvCode(got) > 0 then env.recvTime else c.lastActive)
  }

  function PushClient(c: Client, env: Env): Client {
    var sent := Flush(env.sends, c.response);
    c.(response := c.response[|sent.0|..], h := c.h.(toClient := c.h.toClient + sent.0),
       clientClosed := c.clientClosed || SendCode(sent) < 0,
       lastActive := if SendCode(sent) > 0 then env.sendTime else c.lastActive)
  }

  ghost predicate Roomy(c: Client) {
    |c.request| <= c.requestCapacity && |c.response| <= c.responseCapacity
  }

  /** `connection_forward`; whether there is anything to write is decided before reading. */
  function Forwarded(c: Client, kind: FdKind, ev: Events, env: Env): Client
    requires Roomy(c)
  {
    if kind.ClientFd? then
      var c1 := if ev.readable then PullClient(c, env) else c;
      if ev.writable && c.response != "" then PushClient(c1, env) else c1
    else
      var c1 := if ev.writable && c.request != "" then PushTarget(c, env) else c;
      if ev.readable then PullTarget(c1, env) else c1
  }

  /** `handle_forwarding`. */
  function ForwardStep(c: Client, kind: FdKind, ev: Events, env: Env): Client
    requires Roomy(c)
  {
    var moved := Forwarded(c, kind, ev, env);
    if moved.clientClosed && moved.targetClosed then moved.(phase := Closing) else moved
  }

  /** `handle_client`. */
  ghost function EventStep<C>(s: State<C>, me: C, kind: FdKind, ev: Events, env: Env): State<C>
    requires Roomy(s.c)
  {
    if s.c.expired then s
    else match s.c.phase
      case ReadingRequest => ReadStep(s, me, env)
      case Authenticating => AuthStep(s, me, env)
      case InitializeConnection => InitStep(s, me, env)
      case Connecting => ConnectingStep(s, me, env)
      case Forwarding => s.(c := ForwardStep(s.c, kind, ev, env))
      case Closing => CloseStep(s)
  }
}
