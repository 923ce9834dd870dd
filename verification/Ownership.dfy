/** Descriptors: what one event does to the kernel's tables, and to nobody else's part of them. */
module Ownership {
  import opened CString
  import opened AuthCaches
  import opened HostHeaders
  import opened Connections
  import opened Lifecycle
  import opened LifecycleProofs

  /** Only open descriptors are registered. */
  ghost predicate KernelOk<C>(k: Kernel<C>) {
    -1 !in k.open && k.regs.Keys <= k.open
  }

  /** The registration of one of the client's descriptors names the client and the right side. */
  ghost predicate OwnReg<C>(c: Client, me: C, fd: int, reg: Reg<C>) {
    reg.Reg? && reg.owner == me && (reg.kind.ClientFd? <==> fd == c.clientFd)
  }

  /** The client's descriptors are open and distinct, and exactly the registrations of its
      own descriptors name it. */
  ghost predicate Owns<C>(c: Client, me: C, k: Kernel<C>) {
    && Fds(c) <= k.open
    && (c.clientFd == c.targetFd ==> c.clientFd == -1)
    && (forall fd :: fd in k.regs && fd in Fds(c) ==> OwnReg(c, me, fd, k.regs[fd]))
    && (forall fd :: fd in k.regs && k.regs[fd].Reg? && k.regs[fd].owner == me ==> fd in Fds(c))
  }

  /** Nothing but the client's own descriptors and registrations has changed. */
  ghost predicate Apart<C>(s: State<C>, s': State<C>) {
    && s'.k.open - Fds(s'.c) == s.k.open - Fds(s.c)
    && s'.k.regs - Fds(s'.c) == s.k.regs - Fds(s.c)
  }

  /** One step leaves the rest of the tables alone, and its client owns its descriptors
      afterwards if, and only if, `ok`. */
  ghost predicate Owned<C>(s: State<C>, me: C, s': State<C>, ok: bool) {
    KernelOk(s'.k) && Apart(s, s') && (Owns(s'.c, me, s'.k) <==> ok)
  }

  ghost predicate Ready<C>(s: State<C>, me: C) {
    KernelOk(s.k) && Owns(s.c, me, s.k)
  }

  // ---------- when an event connects, and when registering the target fails ----------

  /** A socket is made, and is connected or connecting. */
  ghost predicate OpensTarget<C>(k: Kernel<C>, env: Env) {
    env.resolved && k.NewFd(env.socket) != -1 && !env.connect.Refused?
  }

  /** But epoll does not get it, or not with its data. */
  ghost predicate RegistrationFails<C>(k: Kernel<C>, env: Env) {
    OpensTarget(k, env) && !(env.addOk && env.dataOk)
  }

  /** The request in the buffer is granted, and names a host. */
  ghost predicate Admits(c: Client, calls: seq<Call>, env: Env) {
    && GrantedLast(calls + [Call(CStr(c.request), env.authNow, env.authStore, env.db)])
    && HostPort(CStr(c.request)).Some?
  }

  /** The event makes its client connect: it is about to, or it is to be admitted, at once or
      after a read that completes its request. */
  ghost predicate Connects(c: Client, calls: seq<Call>, env: Env)
    requires Roomy(c)
  {
    && !c.expired
    && match c.phase
       case ReadingRequest => ReadRequest(c, env).1 == 1 && Admits(ReadRequest(c, env).0, calls, env)
       case Authenticating => Admits(c, calls, env)
       case InitializeConnection => true
       case _ => false
  }

  /** The event fails to register the target that it connects to. */
  ghost predicate FailsToRegister<C>(s: State<C>, env: Env)
    requires Roomy(s.c)
  {
    Connects(s.c, s.calls, env) && RegistrationFails(s.k, env)
  }

  // ---------- what the steps do ----------

  lemma CloseOwns<C>(s: State<C>, me: C)
    requires Ready(s, me)
    ensures Owned(s, me, CloseStep(s), true)
    ensures Fds(CloseStep(s).c) == {} && CloseStep(s).k == Kernel(s.k.open - Fds(s.c), s.k.regs - Fds(s.c))
  {
    var s' := CloseStep(s);
    assert s'.k.open == s.k.open - Fds(s.c);
    assert s'.k.regs == s.k.regs - Fds(s.c);
  }

  /** A connection attempt opens one new socket, and keeps its number, unless it fails. */
  lemma ConnectOpens<C>(s: State<C>, env: Env)
    requires KernelOk(s.k) && s.c.targetFd == -1
    ensures var (t, result) := ConnectStep(s, env);
            && t.c.clientFd == s.c.clientFd && (result != -1 <==> OpensTarget(s.k, env))
            && t.c.targetFd == (if OpensTarget(s.k, env) then env.socket else -1)
            && t.k == if OpensTarget(s.k, env) then s.k.Opened(env.socket) else s.k
  {
    hide Sent;
    if env.resolved && s.k.NewFd(env.socket) != -1 {
      assert s.k.Opened(env.socket).Closed(env.socket) == s.k;
    }
  }

  lemma InitOwns<C>(s: State<C>, me: C, env: Env)
    requires Ready(s, me) && s.c.targetFd == -1
    ensures Owned(s, me, InitStep(s, me, env), !RegistrationFails(s.k, env))
  {
    hide ConnectStep, Owns, Apart;
    var s' := InitStep(s, me, env);
    ConnectOpens(s, env);
    if !OpensTarget(s.k, env) {
      SameOwner(s, me, s');
    } else if !env.addOk {
      TargetRefused(s, me, s', env.socket);
    } else {
      TargetAdded(s, me, s', env.socket, if env.dataOk then Reg(TargetFd, me, Events(false, true)) else NoData);
    }
  }

  lemma TargetRefused<C>(s: State<C>, me: C, s': State<C>, fd: int)
    requires Ready(s, me) && s.c.targetFd == -1 && fd != -1 && fd !in s.k.open
    requires s'.c.clientFd == s.c.clientFd && s'.c.targetFd == fd
    requires s'.k == s.k.Opened(fd).Closed(fd)
    ensures Owned(s, me, s', false)
  {
    assert s'.k == s.k;
    assert Fds(s'.c) == Fds(s.c) + {fd};
  }

  lemma TargetAdded<C>(s: State<C>, me: C, s': State<C>, fd: int, reg: Reg<C>)
    requires Ready(s, me) && s.c.targetFd == -1 && fd != -1 && fd !in s.k.open
    requires s'.c.clientFd == s.c.clientFd && s'.c.targetFd == fd
    requires s'.k == Kernel(s.k.open + {fd}, s.k.regs[fd := reg])
    requires reg == NoData || (reg.Reg? && reg.kind == TargetFd && reg.owner == me)
    ensures Owned(s, me, s', reg.Reg?)
  {
    assert Fds(s'.c) == Fds(s.c) + {fd};
    assert s'.k.regs - Fds(s'.c) == s.k.regs - Fds(s.c);
    assert fd in s'.k.regs && s'.k.regs[fd] == reg;
  }

  lemma SameOwner<C>(s: State<C>, me: C, s': State<C>)
    requires Ready(s, me) && s'.k == s.k
    requires s'.c.clientFd == s.c.clientFd && s'.c.targetFd == s.c.targetFd
    ensures Owned(s, me, s', true) && Ready(s', me)
  {
  }

  lemma AdmitOwns<C>(s: State<C>, me: C, request: string, env: Env)
    requires Ready(s, me) && s.c.targetFd == -1 && s.calls != []
    ensures Owned(s, me, AdmitStep(s, me, request, env), !(HostPort(request).Some? && RegistrationFails(s.k, env)))
  {
    hide InitStep, HostPort, RegistrationFails;
    var (c, found) := Aim(s.c, |s.calls| - 1, request);
    SameOwner(s, me, s.(c := c));
    if found {
      InitOwns(s.(c := c), me, env);
    }
  }

  lemma AuthOwns<C>(s: State<C>, me: C, env: Env)
    requires Ready(s, me) && s.c.targetFd == -1
    ensures Owned(s, me, AuthStep(s, me, env), !(Admits(s.c, s.calls, env) && RegistrationFails(s.k, env)))
  {
    hide AdmitStep, CloseStep, GrantedLast, RegistrationFails, HostPort;
    var asked := s.(calls := s.calls + [Call(CStr(s.c.request), env.authNow, env.authStore, env.db)]);
    SameOwner(s, me, asked);
    if GrantedLast(asked.calls) {
      AdmitOwns(asked, me, CStr(s.c.request), env);
    } else {
      var t := Fail(asked.(c := Reject(s.c, env.answered)));
      SameOwner(s, me, t);
      CloseOwns(t, me);
    }
  }

  lemma RequestOnlyReads(c: Client, env: Env)
    requires |c.request| <= c.requestCapacity
    ensures var c' := ReadRequest(c, env).0; c'.clientFd == c.clientFd && c'.targetFd == c.targetFd
  {
  }

  lemma ReadOwns<C>(s: State<C>, me: C, env: Env)
    requires Ready(s, me) && s.c.targetFd == -1 && Roomy(s.c)
    ensures Owned(s, me, ReadStep(s, me, env),
                  !(&& ReadRequest(s.c, env).1 == 1 && Admits(ReadRequest(s.c, env).0, s.calls, env)
                    && RegistrationFails(s.k, env)))
  {
    hide CloseStep, AuthStep, ReadRequest, RegistrationFails;
    RequestOnlyReads(s.c, env);
    var (c, result) := ReadRequest(s.c, env);
    SameOwner(s, me, s.(c := c));
    if result < 0 {
      SameOwner(s, me, Fail(s.(c := c)));
      CloseOwns(Fail(s.(c := c)), me);
    } else if result == 1 {
      SameOwner(s, me, s.(c := c.(phase := Authenticating)));
      AuthOwns(s.(c := c.(phase := Authenticating)), me, env);
    }
  }

  lemma ForwardingRegsOwns<C>(k: Kernel<C>, c: Client, me: C, env: Env)
    requires KernelOk(k) && Owns(c, me, k) && c.targetFd != -1
    ensures var k' := ForwardingRegs(k, c, me, env);
            KernelOk(k') && Owns(c, me, k') && k'.open == k.open && k'.regs - Fds(c) == k.regs - Fds(c)
  {
  }

  lemma ConnectingOwns<C>(s: State<C>, me: C, env: Env)
    requires Ready(s, me) && s.c.targetFd != -1
    ensures Owned(s, me, ConnectingStep(s, me, env), true)
  {
    hide CloseStep;
    if env.socketError {
      var t := Fail(s.(c := s.c.(targetFd := -1), k := s.k.Closed(s.c.targetFd)));
      TargetClosed(s, me, t);
      CloseOwns(t, me);
    } else {
      var c := Joined(s.c, env);
      SameOwner(s, me, s.(c := c));
      hide Joined, ForwardingRegs;
      ForwardingRegsOwns(s.k, c, me, env);
    }
  }

  lemma TargetClosed<C>(s: State<C>, me: C, t: State<C>)
    requires Ready(s, me) && s.c.targetFd != -1
    requires t.c.clientFd == s.c.clientFd && t.c.targetFd == -1 && t.k == s.k.Closed(s.c.targetFd)
    ensures Apart(s, t) && Ready(t, me)
  {
    assert Fds(t.c) == Fds(s.c) - {s.c.targetFd};
    assert t.k.regs - Fds(t.c) == s.k.regs - Fds(s.c);
  }

  /** Every event, whatever the kernel answers: its client keeps what it owns unless, and only
      unless, the event fails to register a target. */
  lemma EventOwns<C>(s: State<C>, me: C, kind: FdKind, ev: Events, env: Env)
    requires Ready(s, me) && Roomy(s.c) && PhaseOk(s.c)
    ensures Owned(s, me, EventStep(s, me, kind, ev, env), !FailsToRegister(s, env))
  {
    hide ReadStep, AuthStep, InitStep, ConnectingStep, ForwardStep, CloseStep, RegistrationFails, Admits, ReadRequest;
    if s.c.expired {
      SameOwner(s, me, s);
    } else {
      match s.c.phase
      case ReadingRequest => ReadOwns(s, me, env);
      case Authenticating => AuthOwns(s, me, env);
      case InitializeConnection => InitOwns(s, me, env);
      case Connecting => ConnectingOwns(s, me, env);
      case Forwarding =>
        ForwardOnlyMoves(s.c, kind, ev, env);
        SameOwner(s, me, s.(c := ForwardStep(s.c, kind, ev, env)));
      case Closing => CloseOwns(s, me);
    }
  }

  // ---------- connection attempts ----------

  ghost predicate DialsIf<C>(s: State<C>, s': State<C>, connects: bool) {
    s'.c.h.dials == s.c.h.dials + if connects then 1 else 0
  }

  lemma InitDials<C>(s: State<C>, me: C, env: Env)
    ensures DialsIf(s, InitStep(s, me, env), true)
  {
    hide Establish;
    EstablishDials();
  }

  lemma EstablishDials()
    ensures forall c: Client, n: nat :: Establish(c, n).h.dials == c.h.dials
  {
    hide Sent;
  }

  lemma AuthDials<C>(s: State<C>, me: C, env: Env)
    ensures DialsIf(s, AuthStep(s, me, env), Admits(s.c, s.calls, env))
  {
    hide InitStep, GrantedLast, HostPort, CStr, Sent;
    var call := Call(CStr(s.c.request), env.authNow, env.authStore, env.db);
    var c := Aim(s.c, |s.calls|, CStr(s.c.request)).0;
    InitDials(s.(c := c, calls := s.calls + [call]), me, env);
  }

  lemma ReadDials<C>(s: State<C>, me: C, env: Env)
    requires Roomy(s.c)
    ensures DialsIf(s, ReadStep(s, me, env), ReadRequest(s.c, env).1 == 1 && Admits(ReadRequest(s.c, env).0, s.calls, env))
  {
    hide AuthStep, ReadRequest, Admits;
    var capacity, data := RequestOutcome(s.c, env);
    var c := ReadRequest(s.c, env).0;
    AuthDials(s.(c := c.(phase := Authenticating)), me, env);
    SameAdmits(c, c.(phase := Authenticating), s.calls, env);
  }

  lemma SameAdmits(c: Client, c': Client, calls: seq<Call>, env: Env)
    requires c'.request == c.request
    ensures Admits(c', calls, env) <==> Admits(c, calls, env)
  {
  }

  /** The events that connect are exactly those: each tries one connection, the others none. */
  lemma EventDials<C>(s: State<C>, me: C, kind: FdKind, ev: Events, env: Env)
    requires Roomy(s.c)
    ensures DialsIf(s, EventStep(s, me, kind, ev, env), Connects(s.c, s.calls, env))
  {
    hide ReadStep, AuthStep, InitStep, ForwardStep, Admits, ReadRequest, Sent;
    ReadDials(s, me, env);
    AuthDials(s, me, env);
    InitDials(s, me, env);
    ForwardOnlyMoves(s.c, kind, ev, env);
  }

  /** An event of one client leaves every other client the owner of what it owned. */
  lemma OwnsElsewhere<C>(s: State<C>, me: C, s': State<C>, d: Client, other: C)
    requires KernelOk(s.k) && Apart(s, s') && Owns(s'.c, me, s'.k) && other != me
    requires Owns(d, other, s.k) && Fds(d) !! Fds(s.c)
    ensures Owns(d, other, s'.k) && Fds(d) !! Fds(s'.c)
  {
    forall fd | fd in Fds(d)
      ensures fd in s'.k.open && fd !in Fds(s'.c)
    {
      assert fd in s.k.open - Fds(s.c);
    }
    forall fd | fd in s'.k.regs && fd !in Fds(s'.c)
      ensures fd in s.k.regs && fd !in Fds(s.c) && s'.k.regs[fd] == s.k.regs[fd]
    {
      assert fd in s'.k.regs - Fds(s'.c);
    }
  }
}
