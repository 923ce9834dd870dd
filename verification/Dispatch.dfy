/** Registrations: whatever the kernel answers, and even after a target could not be registered,
    every registration that carries data leads to the client whose descriptor it is about. */
module Dispatches {
  import opened CString
  import opened AuthCaches
  import opened HostHeaders
  import opened Connections
  import opened Lifecycle
  import opened LifecycleProofs
  import opened Ownership

  /** The number that the client has for one of its sides. */
  function SideFd(c: Client, kind: FdKind): int {
    if kind.ClientFd? then c.clientFd else c.targetFd
  }

  /** The registrations that name the client are at its own numbers, each on its side. */
  ghost predicate Leads<C>(c: Client, me: C, k: Kernel<C>) {
    forall fd :: fd in k.regs && k.regs[fd].Reg? && k.regs[fd].owner == me ==> fd == SideFd(c, k.regs[fd].kind)
  }

  /** One step registers nothing for anybody else, and nothing without data when `dataOk`. */
  ghost predicate NothingForOthers<C>(s: State<C>, me: C, s': State<C>, dataOk: bool) {
    forall fd :: fd in s'.k.regs && (if s'.k.regs[fd].Reg? then s'.k.regs[fd].owner != me else dataOk) ==>
      fd in s.k.regs && s.k.regs[fd] == s'.k.regs[fd]
  }

  ghost predicate Found<C>(s: State<C>, me: C) {
    KernelOk(s.k) && Leads(s.c, me, s.k)
  }

  ghost predicate StaysFound<C>(s: State<C>, me: C, s': State<C>, dataOk: bool) {
    Found(s', me) && NothingForOthers(s, me, s', dataOk)
  }

  lemma SameFound<C>(s: State<C>, me: C, s': State<C>, dataOk: bool)
    requires Found(s, me) && s'.k == s.k
    requires s'.c.clientFd == s.c.clientFd && s'.c.targetFd == s.c.targetFd
    ensures StaysFound(s, me, s', dataOk)
  {
  }

  lemma FoundOn<C>(a: State<C>, me: C, b: State<C>, c: State<C>, dataOk: bool)
    ensures StaysFound(a, me, b, dataOk) && StaysFound(b, me, c, dataOk) ==> StaysFound(a, me, c, dataOk)
  {
  }

  lemma CloseFound<C>(s: State<C>, me: C, dataOk: bool)
    requires Found(s, me)
    ensures StaysFound(s, me, CloseStep(s), dataOk)
  {
  }

  lemma InitFound<C>(s: State<C>, me: C, env: Env)
    requires Found(s, me) && s.c.targetFd == -1
    ensures StaysFound(s, me, InitStep(s, me, env), env.dataOk)
  {
    hide ConnectStep;
    ConnectOpens(s, env);
  }

  lemma EstablishKeepsFds()
    ensures forall c: Client, n: nat ::
              Establish(c, n).clientFd == c.clientFd && Establish(c, n).targetFd == c.targetFd
  {
  }

  lemma AdmitFound<C>(s: State<C>, me: C, request: string, env: Env)
    requires Found(s, me) && s.c.targetFd == -1 && s.calls != []
    ensures StaysFound(s, me, AdmitStep(s, me, request, env), env.dataOk)
  {
    hide InitStep, HostPort, StaysFound, Found;
    var (c, found) := Aim(s.c, |s.calls| - 1, request);
    SameFound(s, me, s.(c := c), env.dataOk);
    if found {
      FoundAgain(s, me, s.(c := c), env.dataOk);
      InitFound(s.(c := c), me, env);
      FoundOn(s, me, s.(c := c), InitStep(s.(c := c), me, env), env.dataOk);
    }
  }

  lemma FoundAgain<C>(s: State<C>, me: C, s': State<C>, dataOk: bool)
    requires StaysFound(s, me, s', dataOk)
    ensures Found(s', me)
  {
  }

  lemma AuthFound<C>(s: State<C>, me: C, env: Env)
    requires Found(s, me) && s.c.targetFd == -1
    ensures StaysFound(s, me, AuthStep(s, me, env), env.dataOk)
  {
    hide AdmitStep, CloseStep, GrantedLast, StaysFound, Found;
    var asked := s.(calls := s.calls + [Call(CStr(s.c.request), env.authNow, env.authStore, env.db)]);
    var t := if GrantedLast(asked.calls) then asked else Fail(asked.(c := Reject(s.c, env.answered)));
    SameFound(s, me, t, env.dataOk);
    FoundAgain(s, me, t, env.dataOk);
    if GrantedLast(asked.calls) {
      AdmitFound(t, me, CStr(s.c.request), env);
    } else {
      CloseFound(t, me, env.dataOk);
    }
    FoundOn(s, me, t, AuthStep(s, me, env), env.dataOk);
  }

  lemma ReadFound<C>(s: State<C>, me: C, env: Env)
    requires Found(s, me) && s.c.targetFd == -1 && Roomy(s.c)
    ensures StaysFound(s, me, ReadStep(s, me, env), env.dataOk)
  {
    hide CloseStep, AuthStep, ReadRequest, StaysFound, Found;
    RequestOnlyReads(s.c, env);
    var (c, result) := ReadRequest(s.c, env);
    var t := if result < 0 then Fail(s.(c := c))
             else s.(c := if result == 1 then c.(phase := Authenticating) else c);
    SameFound(s, me, t, env.dataOk);
    FoundAgain(s, me, t, env.dataOk);
    if result < 0 {
      CloseFound(t, me, env.dataOk);
      FoundOn(s, me, t, ReadStep(s, me, env), env.dataOk);
    } else if result == 1 {
      AuthFound(t, me, env);
      FoundOn(s, me, t, ReadStep(s, me, env), env.dataOk);
    }
  }

  lemma ConnectingFound<C>(s: State<C>, me: C, env: Env)
    requires Found(s, me)
    ensures StaysFound(s, me, ConnectingStep(s, me, env), env.dataOk)
  {
    hide CloseStep, Establish;
    if env.socketError {
      var t := Fail(s.(c := s.c.(targetFd := -1), k := s.k.Closed(s.c.targetFd)));
      assert StaysFound(s, me, t, env.dataOk);
      CloseFound(t, me, env.dataOk);
      FoundOn(s, me, t, CloseStep(t), env.dataOk);
    } else {
      EstablishKeepsFds();
    }
  }

  /** Every event, on every state that the invariants allow, whatever has failed before. */
  lemma EventFound<C>(s: State<C>, me: C, kind: FdKind, ev: Events, env: Env)
    requires Found(s, me) && Roomy(s.c) && PhaseOk(s.c)
    ensures StaysFound(s, me, EventStep(s, me, kind, ev, env), env.dataOk)
  {
    hide ReadStep, AuthStep, InitStep, ConnectingStep, ForwardStep, CloseStep, StaysFound, Found;
    if s.c.expired {
      SameFound(s, me, s, env.dataOk);
    } else {
      match s.c.phase
      case ReadingRequest => ReadFound(s, me, env);
      case Authenticating => AuthFound(s, me, env);
      case InitializeConnection => InitFound(s, me, env);
      case Connecting => ConnectingFound(s, me, env);
      case Forwarding =>
        ForwardOnlyMoves(s.c, kind, ev, env);
        SameFound(s, me, s.(c := ForwardStep(s.c, kind, ev, env)), env.dataOk);
      case Closing => CloseFound(s, me, env.dataOk);
    }
  }
}
