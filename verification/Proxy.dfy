/** The proxy: the handlers of one client's events, the registry of clients, the accept loop,
    the timer, and the invariant that all of them keep. */
module Proxies {
  import opened CString
  import opened AuthCaches
  import opened HostHeaders
  import opened Connections
  import opened Lifecycle
  import opened LifecycleProofs
  import opened Ownership
  import opened Worlds
  import opened EventLoops
  import opened Clients

  class Proxy {
    const clients: array<ClientState?>
    const auth: AuthCache
    var k: Kernel<ClientState>
    ghost var live: set<ClientState>

    /** The registry lists exactly the live clients, each in its own slot. */
    ghost predicate Registered()
      reads this, clients, live
    {
      && clients.Length == MAX_CLIENTS
      && (forall c :: c in live ==> 0 <= c.slot < MAX_CLIENTS && clients[c.slot] == c)
      && (forall i :: 0 <= i < MAX_CLIENTS && clients[i] != null ==> clients[i] in live && clients[i].slot == i)
    }

    /** No two of the objects share memory. */
    ghost predicate Separate()
      reads this, live, auth
    {
      && {this, clients} !! auth.Repr
      && (forall c :: c in live ==> c.Shape() && c.Repr() !! auth.Repr && {this, clients} !! c.Repr())
      && (forall c, d :: c in live && d in live && c != d ==> c.Repr() !! d.Repr())
    }

    ghost function Buffers(): set<object>
      reads this, live
    {
      set c, o | c in live && o in c.Repr() :: o
    }

    ghost function Footprint(): set<object>
      reads this, live, auth
    {
      {this, clients} + auth.Repr + Buffers()
    }

    /** All the clients as values. */
    ghost function View(): World<ClientState>
      reads this, live, Buffers(), auth
    {
      assert forall c :: c in live ==> c in c.Repr() && c.requestBuffer in c.Repr() && c.responseBuffer in c.Repr();
      World(map c | c in live && c.Shape() :: c.View(), k, auth.calls)
    }

    /** What holds between any two events. */
    ghost predicate Inv()
      reads this, clients, live, Buffers(), auth, auth.Repr
    {
      auth.Valid() && Registered() && Separate() && Safe(View())
    }

    constructor ()
      ensures Inv() && View() == Start() && live == {} && fresh(Footprint())
    {
      hide Safe, AuthCache.Valid;
      clients := new ClientState?[MAX_CLIENTS](_ => null);
      auth := new AuthCache();
      k := Kernel({}, map[]);
      live := {};
      new;
      assert View().views == map[];
      StartSafe<ClientState>();
    }

    // ---------- the handlers ----------

    ghost predicate Prepared(c: ClientState)
      reads this, c, auth, auth.Repr
    {
      && c.Shape() && auth.Valid()
      && this !in auth.Repr && this !in c.Repr() && c.Repr() !! auth.Repr
    }

    ghost function StateOf(c: ClientState): State<ClientState>
      requires c.Shape()
      reads this, c, c.requestBuffer, c.responseBuffer, auth
    {
      State(c.View(), k, auth.calls)
    }

    /** A handler may replace the request buffer, and grow the cache. */
    twostate predicate Kept(c: ClientState)
      reads c, auth
    {
      && (c.requestBuffer == old(c.requestBuffer) || fresh(c.requestBuffer))
      && c.responseBuffer == old(c.responseBuffer) && c.slot == old(c.slot)
      && fresh(auth.Repr - old(auth.Repr))
    }

    method SendHttpsEstablished(c: ClientState, n: nat)
      requires c.Shape()
      modifies c`requestLen, c`h
      ensures c.Shape() && c.View() == Establish(old(c.View()), n)
    {
      hide Sent;
      ghost var sent := Sent(ESTABLISHED, n);
      c.requestLen := 0;
      c.h := c.h.(toClient := c.h.toClient + sent, greeting := |c.h.toClient| + |sent|,
                  established := c.h.established + 1, skipped := |c.h.fromClient|);
      assert c.requestBuffer[..0] == "";
    }

    method SendProxyAuthRequired(c: ClientState, n: nat)
      requires c.Shape()
      modifies c`h
      ensures c.Shape() && c.View() == Reject(old(c.View()), n)
    {
      hide Sent;
      ghost var sent := Sent(AUTH_REQUIRED, n);
      c.h := c.h.(toClient := c.h.toClient + sent, greeting := |c.h.toClient| + |sent|);
    }

    method HandleClosing(c: ClientState)
      requires c.Shape() && this !in c.Repr()
      modifies this`k, c`expired, c`clientFd, c`targetFd
      ensures c.Shape() && StateOf(c) == CloseStep(old(StateOf(c)))
    {
      c.expired := true;
      if c.clientFd != -1 {
        k := k.Deleted(c.clientFd);
        k := k.Closed(c.clientFd);
        c.clientFd := -1;
      }
      if c.targetFd != -1 {
        k := k.Deleted(c.targetFd);
        k := k.Closed(c.targetFd);
        c.targetFd := -1;
      }
    }

    method HandleForwarding(c: ClientState, kind: FdKind, ev: Events, env: Env)
      requires c.Shape() && this !in c.Repr()
      modifies c`requestLen, c`responseLen, c`clientClosed, c`targetClosed, c`lastActive, c`h, c`state,
               c.requestBuffer, c.responseBuffer
      ensures c.Shape() && c.View() == ForwardStep(old(c.View()), kind, ev, env)
    {
      hide Forwarded;
      var result := c.ConnectionForward(kind, ev, env);
      if result != 0 {
        c.state := Closing;
      }
    }

    method RegisterForwardingFds(c: ClientState, env: Env) returns (ok: bool)
      requires c.Shape()
      modifies this`k
      ensures k == ForwardingRegs(old(k), c.View(), c, env)
      ensures ok <==> env.modClientOk && env.modTargetOk && {c.clientFd, c.targetFd} <= old(k).regs.Keys
    {
      if !env.modClientOk || c.clientFd !in k.regs {
        return false;
      }
      k := k.Modified(c.clientFd, Reg(ClientFd, c, Events(true, true)), true);
      ok := env.modTargetOk && c.targetFd in k.regs;
      k := k.Modified(c.targetFd, Reg(TargetFd, c, Events(true, true)), env.modTargetOk);
    }

    /** `connection_connect`. */
    method ConnectionConnect(c: ClientState, env: Env) returns (result: int)
      requires c.Shape() && this !in c.Repr()
      modifies this`k, c`targetFd, c`requestLen, c`h
      ensures c.Shape() && (StateOf(c), result) == ConnectStep(old(StateOf(c)), env)
    {
      hide Establish;
      c.h := c.h.(dials := c.h.dials + 1);
      if !env.resolved {
        return -1;
      }
      c.targetFd := k.NewFd(env.socket);
      if c.targetFd < 0 {
        return -1;
      }
      k := k.Opened(c.targetFd);
      if env.connect.InProgress? {
        return 0;
      }
      if env.connect.Refused? {
        k := k.Closed(c.targetFd);
        c.targetFd := -1;
        return -1;
      }
      if c.isHttps {
        SendHttpsEstablished(c, env.answered);
      }
      return 1;
    }

    method HandleInitializeConnection(c: ClientState, env: Env)
      requires c.Shape() && this !in c.Repr()
      modifies this`k, c`targetFd, c`requestLen, c`h, c`state
      ensures c.Shape() && StateOf(c) == InitStep(old(StateOf(c)), c, env)
    {
      hide ConnectStep;
      var result := ConnectionConnect(c, env);
      if result == -1 {
        c.state := Closing;
        return;
      }
      if !env.addOk {
        k := k.Closed(c.targetFd);
        c.state := Closing;
        return;
      }
      var reg := if env.dataOk then Reg(TargetFd, c, Events(false, true)) else NoData;
      k := k.Added(c.targetFd, reg);
      c.state := Connecting;
    }

    method HandleConnecting(c: ClientState, kind: FdKind, ev: Events, env: Env)
      requires Prepared(c) && c.state == Connecting && !c.expired
      modifies this`k, c, c.requestBuffer, c.responseBuffer, auth.Repr
      ensures Prepared(c) && Kept(c)
      ensures StateOf(c) == ConnectingStep(old(StateOf(c)), c, env)
      decreases 6 - Rank(c.state), 0
    {
      hide Joined, ForwardingRegs, CloseStep, AuthCache.Valid;
      if env.socketError {
        k := k.Closed(c.targetFd);
        c.targetFd := -1;
        c.state := Closing;
        HandleClient(c, kind, ev, env);
      } else {
        StartForwarding(c, env);
        var _ := RegisterForwardingFds(c, env);
      }
    }

    method StartForwarding(c: ClientState, env: Env)
      requires c.Shape()
      modifies c`requestLen, c`responseLen, c`h, c`state
      ensures c.Shape() && c.View() == Joined(old(c.View()), env)
    {
      hide Establish;
      if c.isHttps {
        SendHttpsEstablished(c, env.answered);
      }
      c.responseLen := 0;
      c.state := Forwarding;
      assert c.responseBuffer[..0] == "";
    }

    method HandleAuthenticating(c: ClientState, kind: FdKind, ev: Events, env: Env)
      requires Prepared(c) && c.state == Authenticating && !c.expired
      modifies this`k, c, c.requestBuffer, c.responseBuffer, auth.Repr
      ensures Prepared(c) && Kept(c)
      ensures StateOf(c) == AuthStep(old(StateOf(c)), c, env)
      decreases 6 - Rank(c.state), 1
    {
      hide CloseStep, AdmitStep, AuthCache.Valid, GrantedLast, Reject;
      var request := CStr(c.requestBuffer[..c.requestLen]);
      var granted := AskCache(request, env);
      if granted {
        Admit(c, request, kind, ev, env);
      } else {
        SendProxyAuthRequired(c, env.answered);
        c.state := Closing;
        HandleClient(c, kind, ev, env);
      }
    }

    /** The branch of `handle_authenticating` for a granted request. */
    method Admit(c: ClientState, request: string, kind: FdKind, ev: Events, env: Env)
      requires Prepared(c) && c.state == Authenticating && !c.expired && NulFree(request) && auth.calls != []
      modifies this`k, c, c.requestBuffer, c.responseBuffer, auth.Repr
      ensures Prepared(c) && Kept(c)
      ensures StateOf(c) == AdmitStep(old(StateOf(c)), c, request, env)
      decreases 6 - Rank(c.state), 0
    {
      hide InitStep, AuthCache.Valid;
      var found := FindTarget(c, request);
      if found {
        HandleClient(c, kind, ev, env);
      }
    }

    method FindTarget(c: ClientState, request: string) returns (found: bool)
      requires c.Shape() && NulFree(request) && auth.calls != []
      modifies c`isHttps, c`h, c`host, c`port, c`state
      ensures c.Shape() && (c.View(), found) == Aim(old(c.View()), |auth.calls| - 1, request)
      ensures found ==> c.state == InitializeConnection
    {
      hide HostPort;
      c.isHttps := "CONNECT " <= request;
      c.h := c.h.(auth := Some(|auth.calls| - 1));
      var hostPort := ParseHostPort(request);
      if hostPort.None? {
        c.state := Closing;
        return false;
      }
      c.host, c.port := hostPort.value.0, hostPort.value.1;
      c.state := InitializeConnection;
      return true;
    }

    method AskCache(request: string, env: Env) returns (granted: bool)
      requires auth.Valid() && this !in auth.Repr
      modifies auth.Repr
      ensures auth.Valid() && fresh(auth.Repr - old(auth.Repr))
      ensures auth.calls == old(auth.calls) + [Call(request, env.authNow, env.authStore, env.db)]
      ensures granted <==> GrantedLast(auth.calls)
    {
      granted := auth.HasValidAuth(request, env.authNow, env.authStore, env.db);
    }

    method HandleReadingRequest(c: ClientState, kind: FdKind, ev: Events, env: Env)
      requires Prepared(c) && c.state == ReadingRequest && !c.expired
      modifies this`k, c, c.requestBuffer, c.responseBuffer, auth.Repr
      ensures Prepared(c) && Kept(c)
      ensures StateOf(c) == ReadStep(old(StateOf(c)), c, env)
      decreases 6 - Rank(c.state), 0
    {
      hide CloseStep, AuthStep, ReadRequest, AuthCache.Valid;
      var result := c.ReadRequestNonblocking(env);
      if result < 0 {
        c.state := Closing;
        HandleClient(c, kind, ev, env);
      } else if result == 1 {
        c.state := Authenticating;
        HandleClient(c, kind, ev, env);
      }
    }

    /** Dispatch on the phase. The handlers call back, each time in a later phase. */
    method HandleClient(c: ClientState, kind: FdKind, ev: Events, env: Env)
      requires Prepared(c)
      modifies this`k, c, c.requestBuffer, c.responseBuffer, auth.Repr
      ensures Prepared(c) && Kept(c)
      ensures StateOf(c) == EventStep(old(StateOf(c)), c, kind, ev, env)
      decreases 6 - Rank(c.state), 2
    {
      hide ReadStep, AuthStep, InitStep, ConnectingStep, ForwardStep, CloseStep, AuthCache.Valid;
      if c.expired {
        return;
      }
      match c.state {
        case ReadingRequest => HandleReadingRequest(c, kind, ev, env);
        case Authenticating => HandleAuthenticating(c, kind, ev, env);
        case InitializeConnection => HandleInitializeConnection(c, env);
        case Connecting => HandleConnecting(c, kind, ev, env);
        case Forwarding => HandleForwarding(c, kind, ev, env);
        case Closing => HandleClosing(c);
      }
    }

    // ---------- one event ----------

    /** An event on a descriptor whose registration carries data is the event step. */
    method HandleClientEvent(fd: int, ev: Events, env: Env)
      requires Inv() && fd in k.regs && k.regs[fd].Reg?
      modifies Footprint()
      ensures Enabled(old(View()), Event(fd, ev, env)) && View() == Next(old(View()), Event(fd, ev, env))
      ensures Inv() && live == old(live) && clients[..] == old(clients[..]) && fresh(Footprint() - old(Footprint()))
    {
      hide Safe, Enabled, Next, AuthCache.Valid;
      ghost var w := View();
      EveryEventIsEnabled(w, fd, ev, env);
      StepKeepsSafe(w, Event(fd, ev, env));
      EventNext(w, fd, ev, env);
      var reg := k.regs[fd];
      Dispatch(reg.owner, reg.kind, ev, env);
    }

    /** `handle_client` leaves all the other clients alone. */
    method Dispatch(c: ClientState, kind: FdKind, ev: Events, env: Env)
      requires auth.Valid() && Registered() && Separate() && c in live
      modifies this`k, c, c.requestBuffer, c.responseBuffer, auth.Repr
      ensures auth.Valid() && Registered() && Separate() && fresh(Footprint() - old(Footprint()))
      ensures View() == Put(old(View()), c, EventStep(StateIn(old(View()), c), c, kind, ev, env))
    {
      hide EventStep, AuthCache.Valid, Registered, Separate;
      InParts(c);
      HandleClient(c, kind, ev, env);
      Spare(c);
      OneView(c);
    }

    lemma Fields()
      ensures View().k == k && live <= Footprint()
    {
      assert forall c :: c in live ==> c in c.Repr();
    }

    lemma SafeView()
      requires Inv()
      ensures Safe(View())
    {
      hide Safe, AuthCache.Valid;
    }

    lemma InParts(c: ClientState)
      requires auth.Valid() && Separate() && c in live
      ensures Prepared(c) && clients !in auth.Repr && clients !in c.Repr()
      ensures forall d :: d in live && d != c ==> d.Repr() !! c.Repr() && d.Repr() !! auth.Repr
    {
      hide AuthCache.Valid;
    }

    twostate lemma Spare(c: ClientState)
      requires old(Registered()) && old(Separate()) && c in live && Prepared(c)
      requires unchanged(`live) && unchanged(clients) && Kept(c)
      requires forall d :: d in old(live) && d != c ==>
                 unchanged(d) && unchanged(d.requestBuffer) && unchanged(d.responseBuffer)
      ensures Registered() && Separate() && fresh(Footprint() - old(Footprint()))
    {
      hide AuthCache.Valid;
      forall d | d in live && d != c
        ensures d.Shape() && d.Repr() == old(d.Repr()) && d.slot == old(d.slot)
      {
      }
    }

    twostate lemma OneView(c: ClientState)
      requires old(Separate()) && Separate() && c in live
      requires unchanged(`live) && unchanged(clients) && Kept(c)
      requires forall d :: d in old(live) && d != c ==>
                 unchanged(d) && unchanged(d.requestBuffer) && unchanged(d.responseBuffer)
      ensures View().views == old(View()).views[c := c.View()]
    {
    }

    // ---------- the registry ----------

    /** `state_registry_add`: the first free slot, or -1. */
    method StateRegistryAdd(c: ClientState) returns (slot: int)
      requires clients.Length == MAX_CLIENTS
      modifies clients
      ensures slot == -1 ==> null !in old(clients[..]) && clients[..] == old(clients[..])
      ensures slot != -1 ==>
                && 0 <= slot < MAX_CLIENTS && old(clients[slot]) == null && null !in old(clients[..slot])
                && clients[..] == old(clients[..])[slot := c]
    {
      for i := 0 to MAX_CLIENTS
        invariant null !in clients[..i]
        invariant clients[..] == old(clients[..])
      {
        if clients[i] == null {
          clients[i] := c;
          return i;
        }
      }
      return -1;
    }

    method StateRegistryRemove(slot: int)
      requires clients.Length == MAX_CLIENTS && 0 <= slot < MAX_CLIENTS
      modifies clients
      ensures clients[..] == old(clients[..])[slot := null]
    {
      clients[slot] := null;
    }

    /** A slot is free exactly when fewer clients are live than there are slots. */
    lemma {:induction false} SlotsTaken(n: nat)
      requires Registered() && n <= MAX_CLIENTS
      ensures var taken := set c | c in live && c.slot < n; |taken| <= n && (|taken| == n <==> null !in clients[..n])
    {
      if n != 0 {
        SlotsTaken(n - 1);
        var before := set c | c in live && c.slot < n - 1;
        var c := clients[n - 1];
        var taken := set c | c in live && c.slot < n;
        assert clients[..n] == clients[..n - 1] + [c];
        assert taken == if c == null then before else before + {c};
      }
    }

    lemma RoomLeft()
      requires Inv()
      ensures clients.Length == MAX_CLIENTS
      ensures |View().views| <= 1024 && (null in clients[..] <==> |View().views| < 1024)
    {
      hide Safe, AuthCache.Valid;
      SlotsTaken(MAX_CLIENTS);
      assert clients[..MAX_CLIENTS] == clients[..];
      assert (set c | c in live && c.slot < MAX_CLIENTS) == live == View().views.Keys;
    }

    // ---------- arrivals ----------

    /** `free_client_state`: the descriptors are closed; the memory is left to the collector. */
    method FreeClientState(c: ClientState)
      modifies this`k, c`clientFd, c`targetFd
      ensures c.clientFd == c.targetFd == -1
      ensures var fds := {old(c.clientFd), old(c.targetFd)} - {-1};
              k == Kernel(old(k).open - fds, old(k).regs - fds)
    {
      if c.clientFd != -1 {
        k := k.Closed(c.clientFd);
        c.clientFd := -1;
      }
      if c.targetFd != -1 {
        k := k.Deleted(c.targetFd);
        k := k.Closed(c.targetFd);
        c.targetFd := -1;
      }
      ghost var fds := {old(c.clientFd), old(c.targetFd)} - {-1};
      assert k.open == old(k).open - fds && k.regs == old(k).regs - fds;
    }

    /** `epoll_register_client`, for a descriptor that is open. */
    method EpollRegisterClient(fd: int, a: Arrival) returns (c: ClientState?)
      requires fd != -1
      modifies this`k
      ensures c == null <==> !(a.stateOk && a.dataOk && a.addOk)
      ensures c == null ==> k == old(k).Closed(fd)
      ensures c != null ==>
                && fresh(c) && fresh(c.Repr()) && c.Shape() && c.View() == NewClient(fd, a.now)
                && k == old(k).Added(fd, Reg(ClientFd, c, Events(true, false)))
    {
      if !a.stateOk {
        k := k.Closed(fd);
        return null;
      }
      c := new ClientState(fd, a.now);
      assert {c.clientFd, c.targetFd} - {-1} == {fd};
      if !a.dataOk {
        FreeClientState(c);
        return null;
      }
      if !a.addOk {
        FreeClientState(c);
        return null;
      }
      k := k.Added(fd, Reg(ClientFd, c, Events(true, false)));
    }

    /** The new client is in the first slot that was free; the others are as they were. */
    twostate predicate TookFirstSlot(new c: ClientState)
      reads clients, c
    {
      && 0 <= c.slot < clients.Length && null !in old(clients[..])[..c.slot] && old(clients[..])[c.slot] == null
      && clients[..] == old(clients[..])[c.slot := c]
    }

    /** One turn of the accept loop; null ends the loop. An arrival that is admitted takes the
        first free slot, and is the arrival step; one that is not leaves everything as it was. */
    method AcceptOne(a: Arrival) returns (c: ClientState?)
      requires Inv()
      modifies this, clients
      ensures Inv() && auth.calls == old(auth.calls)
      ensures c != null <==>
                && a.fd >= 0 && a.fd !in old(k.open) && a.stateOk && a.dataOk && a.addOk && null in old(clients[..])
      ensures c == null ==> live == old(live) && View() == old(View()) && clients[..] == old(clients[..])
      ensures c != null ==>
                && fresh(c.Repr()) && live == old(live) + {c}
                && Enabled(old(View()), Arrive(c, a.fd, c.slot, a.now))
                && View() == Next(old(View()), Arrive(c, a.fd, c.slot, a.now))
                && TookFirstSlot(c)
    {
      hide Safe, AuthCache.Valid, Enabled, Next, Registered, Separate, Buffers;
      ghost var w := View();
      TablesApart();
      HeldSlots();
      var fd := k.NewFd(a.fd);
      if fd == -1 {
        return null;
      }
      k := k.Opened(fd);
      c := EpollRegisterClient(fd, a);
      if c == null {
        NeverOpened(w, fd, NoData);
        Untouched();
        return null;
      }
      assert {c.clientFd, c.targetFd} - {-1} == {fd} by { assert c.View() == NewClient(fd, a.now); }
      var slot := StateRegistryAdd(c);
      if slot == -1 {
        FreeClientState(c);
        NeverOpened(w, fd, Reg(ClientFd, c, Events(true, false)));
        Untouched();
        return null;
      }
      c.slot := slot;
      live := live + {c};
      Entered(c);
      EnteredView(c);
      ArriveNext(w, c, fd, slot, a.now);
      StepKeepsSafe(w, Arrive(c, fd, slot, a.now));
      assert View() == Arrived(w, c, fd, slot, a.now);
    }

    lemma HeldSlots()
      requires Registered() && Separate()
      ensures clients.Length == MAX_CLIENTS
      ensures forall i :: 0 <= i < MAX_CLIENTS ==> (clients[i] != null <==> HasSlot(View().views, i))
    {
      forall i | 0 <= i < MAX_CLIENTS && clients[i] != null
        ensures HasSlot(View().views, i)
      {
        assert clients[i] in View().views && View().views[clients[i]].slot == i;
      }
    }

    lemma TablesApart()
      requires Registered() && Separate()
      ensures clients.Length == MAX_CLIENTS && {this, clients} !! auth.Repr
      ensures forall d :: d in live ==> this !in d.Repr() && clients !in d.Repr()
    {
    }

    twostate lemma Untouched()
      requires old(Registered()) && old(Separate()) && live == old(live)
      requires clients[..] == old(clients[..]) && unchanged(auth)
      requires forall d :: d in old(live) ==> unchanged(d) && unchanged(d.requestBuffer) && unchanged(d.responseBuffer)
      ensures Registered() && Separate() && View().views == old(View()).views
    {
      hide Safe, AuthCache.Valid;
      forall i | 0 <= i < MAX_CLIENTS
        ensures clients[i] == old(clients[i])
      {
        assert clients[i] == clients[..][i] && old(clients[i]) == old(clients[..])[i];
      }
    }

    twostate lemma Entered(new c: ClientState)
      requires old(Registered()) && old(Separate()) && fresh(c.Repr()) && c.Shape()
      requires live == old(live) + {c} && TookFirstSlot(c) && unchanged(auth)
      requires forall d :: d in old(live) ==> unchanged(d) && unchanged(d.requestBuffer) && unchanged(d.responseBuffer)
      ensures Registered() && Separate()
    {
      hide AuthCache.Valid;
      forall i | 0 <= i < MAX_CLIENTS
        ensures clients[i] == if i == c.slot then c else old(clients[i])
      {
        assert clients[i] == clients[..][i] && old(clients[i]) == old(clients[..])[i];
      }
    }

    twostate lemma EnteredView(new c: ClientState)
      requires old(Separate()) && fresh(c.Repr()) && c.Shape() && live == old(live) + {c}
      requires forall d :: d in old(live) ==> unchanged(d) && unchanged(d.requestBuffer) && unchanged(d.responseBuffer)
      ensures View().views == old(View()).views[c := c.View()] && c !in old(View()).views
    {
      forall d | d in old(live)
        ensures d.Shape() && d.View() == old(d.View())
      {
      }
    }

    /** `handle_listener_event`: arrivals are accepted until the first that is not admitted. */
    method HandleListenerEvent(arrivals: seq<Arrival>) returns (ghost steps: seq<Step<ClientState>>)
      requires Inv()
      modifies this, clients
      ensures Inv() && auth.Repr == old(auth.Repr)
      ensures fresh(Footprint() - old(Footprint())) && old(live) <= live
      ensures Possible(old(View()), steps) && View() == Ran(old(View()), steps)
      ensures Answers(old(View()), Listener(arrivals), steps)
    {
      hide Inv, View, Next, Enabled, Possible, Ran, Footprint, Admissible;
      steps := [];
      NoStep(View());
      Fields();
      for i := 0 to |arrivals|
        invariant Inv() && auth.Repr == old(auth.Repr)
        invariant fresh(Footprint() - old(Footprint())) && old(live) <= live
        invariant Possible(old(View()), steps) && View() == Ran(old(View()), steps)
        invariant |steps| == i && forall j :: 0 <= j < i ==> ArrivesBy(steps[j], arrivals[j])
      {
        ghost var memory := Footprint();
        label Turn:
        var admitted, more := AcceptNext(arrivals[i]);
        forall o | o in Footprint() && o !in memory
          ensures fresh(o)
        {
          assert fresh@Turn(Footprint() - memory);
          assert o in Footprint() - memory && !old@Turn(allocated(o));
        }
        assert fresh(memory - old(Footprint()));
        if !admitted {
          return;
        }
        RunOn(old(View()), steps, more);
        steps := steps + more;
      }
    }

    method AcceptNext(a: Arrival) returns (admitted: bool, ghost more: seq<Step<ClientState>>)
      requires Inv()
      modifies this, clients
      ensures Inv() && auth.Repr == old(auth.Repr)
      ensures fresh(Footprint() - old(Footprint())) && old(live) <= live
      ensures Possible(old(View()), more) && View() == Ran(old(View()), more)
      ensures admitted <==> Admissible(old(View()), a)
      ensures if admitted then |more| == 1 && ArrivesBy(more[0], a) else View() == old(View())
    {
      hide Inv, View, Next, Enabled, Possible, Ran, TookFirstSlot;
      NoStep(View());
      RoomLeft();
      Fields();
      var c := AcceptOne(a);
      admitted := c != null;
      more := [];
      if admitted {
        more := [Arrive(c, a.fd, c.slot, a.now)];
        SingleStep(old(View()), more[0]);
      }
    }

    // ---------- the timer ----------

    /** `timeout_callback` is a visit of the timer to one client. */
    method TimeoutCallback(c: ClientState, now: int)
      requires Inv() && c in live
      modifies this`k, this`live, clients, c`expired, c`clientFd, c`targetFd
      ensures Inv() && View() == Ticked(old(View()), map[c := now])
      ensures live == if old(c.expired) then old(live) - {c} else old(live)
      ensures clients[..] == if old(c.expired) then old(clients[..])[c.slot := null] else old(clients[..])
    {
      hide Safe, AuthCache.Valid, Ticked, Registered;
      TickKeepsSafe(View(), map[c := now]);
      TickedCalls(View(), map[c := now]);
      TickedOne(View(), c, now);
      if now - c.lastActive < IDLE_SECONDS && !c.expired {
        return;
      }
      if c.expired {
        Reap(c);
      } else {
        Expire(c);
      }
    }

    /** The branch for a client that had expired. */
    method Reap(c: ClientState)
      requires auth.Valid() && Registered() && Separate() && c in live
      modifies this`k, this`live, clients, c`clientFd, c`targetFd
      ensures auth.Valid() && Registered() && Separate()
      ensures View().views == old(View()).views - {c} && live == old(live) - {c}
      ensures k == Kernel(old(k).open - Fds(old(c.View())), old(k).regs - Fds(old(c.View())))
      ensures clients[..] == old(clients[..])[c.slot := null]
    {
      hide AuthCache.Valid;
      StateRegistryRemove(c.slot);
      FreeClientState(c);
      live := live - {c};
      Left(c);
      LeftView(c);
    }

    /** The branch for a client that has not, but is idle. */
    method Expire(c: ClientState)
      requires auth.Valid() && Registered() && Separate() && c in live
      modifies this`k, c`expired
      ensures auth.Valid() && Registered() && Separate()
      ensures View().views == old(View()).views[c := old(c.View()).(expired := true)]
      ensures k == if c.clientFd != -1 && c.targetFd != -1 then old(k).Deleted(c.clientFd).Deleted(c.targetFd) else old(k)
    {
      hide AuthCache.Valid, Registered;
      InParts(c);
      if c.clientFd != -1 && c.targetFd != -1 {
        k := k.Deleted(c.clientFd);
        k := k.Deleted(c.targetFd);
      }
      c.expired := true;
      Spare(c);
      OneView(c);
    }

    twostate lemma Left(c: ClientState)
      requires old(Registered()) && old(Separate()) && c in old(live) && live == old(live) - {c}
      requires clients[..] == old(clients[..])[old(c.slot) := null] && unchanged(auth)
      requires forall d :: d in live ==> unchanged(d) && unchanged(d.requestBuffer) && unchanged(d.responseBuffer)
      ensures Registered() && Separate()
    {
      hide AuthCache.Valid;
      forall i | 0 <= i < MAX_CLIENTS
        ensures clients[i] == if i == old(c.slot) then null else old(clients[i])
        ensures clients[i] != null ==> clients[i] in live && clients[i].slot == i
      {
        assert clients[i] == clients[..][i] && old(clients[i]) == old(clients[..])[i];
        assert old(clients[i]) != null ==> old(clients[i].slot) == i;
      }
      forall d | d in live
        ensures 0 <= d.slot < MAX_CLIENTS && clients[d.slot] == d
      {
        assert old(clients[d.slot]) == d;
      }
    }

    twostate lemma LeftView(c: ClientState)
      requires old(Separate()) && c in old(live) && live == old(live) - {c}
      requires forall d :: d in live ==> unchanged(d) && unchanged(d.requestBuffer) && unchanged(d.responseBuffer)
      ensures View().views == old(View()).views - {c}
    {
      forall d | d in live
        ensures d.Shape() && d.View() == old(d.View())
      {
      }
    }

    /** One tick is one visit to every client that was there before it. It frees exactly those
        that had expired by then, and their slots; a failed read of the timer does nothing. */
    method HandleTimerEvent(readOk: bool, clock: seq<int>) returns (ghost steps: seq<Step<ClientState>>)
      requires Inv() && |clock| == MAX_CLIENTS
      modifies this`k, this`live, clients, live`expired, live`clientFd, live`targetFd
      ensures Inv() && live <= old(live) && auth.Repr == old(auth.Repr)
      ensures fresh(Footprint() - old(Footprint()))
      ensures Possible(old(View()), steps) && View() == Ran(old(View()), steps)
      ensures Answers(old(View()), Timer(readOk, clock), steps)
      ensures readOk ==> View() == Ticked(old(View()), Readings(old(View()).views, MAX_CLIENTS, clock))
      ensures readOk ==> live == set c | c in old(live) && !old(c.expired)
      ensures readOk ==> forall i :: 0 <= i < MAX_CLIENTS ==>
                clients[i] == if old(clients[i]) != null && old(clients[i].expired) then null else old(clients[i])
    {
      hide Inv, Ticked, Registered, View, Readings, Next, Enabled, Possible, Ran, AuthCache.Valid, Spared, Swept, Answers,
           Footprint, Buffers, Separate, Midway;
      ghost var w := View();
      Listed();
      SparedMeans(w.views);
      SweptMeans(clients[..], w.views);
      steps := [];
      NoStep(w);
      TimerAnswers(w, clock);
      Fields();
      if !readOk {
        return;
      }
      ForEach(clock);
      steps := [Tick(Readings(w.views, MAX_CLIENTS, clock))];
      OneTick(w, Readings(w.views, MAX_CLIENTS, clock));
    }

    /** `state_registry_for_each`, over a registry that the visits change. */
    method ForEach(clock: seq<int>)
      requires Inv() && |clock| == MAX_CLIENTS
      modifies this`k, this`live, clients, live`expired, live`clientFd, live`targetFd
      ensures Inv() && auth.Repr == old(auth.Repr)
      ensures Footprint() <= old(Footprint()) && live <= old(live)
      ensures Readings(old(View()).views, MAX_CLIENTS, clock).Keys == old(View()).views.Keys
      ensures View() == Ticked(old(View()), Readings(old(View()).views, MAX_CLIENTS, clock))
      ensures live == Spared(old(View()).views, MAX_CLIENTS)
      ensures clients[..] == Swept(old(clients[..]), old(View()).views, MAX_CLIENTS)
    {
      hide Inv, View, Readings, Ticked, Midway, Spared, Swept;
      ghost var w, before := View(), clients[..];
      TickBegins(clock);
      for i := 0 to MAX_CLIENTS
        invariant Inv() && auth.Repr == old(auth.Repr) && live <= old(live)
        invariant Midway(w, before, i, clock)
        invariant forall c :: c in old(live) ==> c.Repr() == old(c.Repr())
      {
        VisitSlot(i, clock, w, before);
      }
      TickEnds(w, before, clock);
    }

    lemma TickBegins(clock: seq<int>)
      requires Inv() && |clock| == MAX_CLIENTS
      ensures clients.Length == MAX_CLIENTS && Midway(View(), clients[..], 0, clock)
    {
      hide Inv, View, Readings, Ticked, Spared, Swept;
      Listed();
      TickedNobody(View());
      ReadingsNone(View().views, clock);
      SparedAll(View().views);
      SweptNone(clients[..], View().views);
    }

    lemma TickEnds(w: World<ClientState>, before: seq<ClientState?>, clock: seq<int>)
      requires Midway(w, before, MAX_CLIENTS, clock)
      ensures Readings(w.views, MAX_CLIENTS, clock).Keys == w.views.Keys
      ensures View() == Ticked(w, Readings(w.views, MAX_CLIENTS, clock))
      ensures live == Spared(w.views, MAX_CLIENTS)
      ensures clients[..] == Swept(before, w.views, MAX_CLIENTS)
    {
      hide View, Readings, Ticked, Spared, Swept;
      ReadingsAll(w.views, clock);
    }

    /** The tick that began in `w` has visited the first `n` slots. */
    ghost predicate Midway(w: World<ClientState>, before: seq<ClientState?>, n: int, clock: seq<int>)
      reads this, clients, live, Buffers(), auth, w.views.Keys
    {
      && |before| == |clock| == MAX_CLIENTS >= n
      && View() == Ticked(w, Readings(w.views, n, clock))
      && live == Spared(w.views, n)
      && clients[..] == Swept(before, w.views, n)
      && forall c :: c in w.views ==>
           0 <= c.slot == w.views[c].slot < MAX_CLIENTS && (c.slot >= n ==> c.expired == w.views[c].expired)
    }

    method VisitSlot(i: int, clock: seq<int>, ghost w: World<ClientState>, ghost before: seq<ClientState?>)
      requires 0 <= i < MAX_CLIENTS && Inv() && Midway(w, before, i, clock)
      modifies this`k, this`live, clients, live`expired, live`clientFd, live`targetFd
      ensures Inv() && Midway(w, before, i + 1, clock)
      ensures live <= old(live) && auth.Repr == old(auth.Repr)
    {
      hide Inv, View, Readings, Ticked, Spared, Swept;
      Listed();
      SweptOneMore(before, w.views, i);
      assert clients[i] == clients[..][i];
      SparedRest(w.views, i);
      OneMoreSlot(w.views, i, clients[i], clock);
      if clients[i] != null {
        TickedOneMore(w, Readings(w.views, i, clock), clients[i], clock[i]);
        TimeoutCallback(clients[i], clock[i]);
      }
    }

    lemma Listed()
      requires Inv()
      ensures clients.Length == MAX_CLIENTS && View().views.Keys == live
      ensures forall c :: c in live ==> 0 <= c.slot < MAX_CLIENTS && clients[c.slot] == c
      ensures forall i :: 0 <= i < MAX_CLIENTS && clients[i] != null ==> clients[i] in live && clients[i].slot == i
      ensures forall c :: c in live ==> View().views[c].slot == c.slot && View().views[c].expired == c.expired
    {
      hide Safe, AuthCache.Valid;
    }

    // ---------- the loop ----------

    /** The event loop: what each input does is what the steps of `Worlds` do, in order. It ends
        early only where it is handed a registration without data. The ownership of descriptors
        lasts as long as every target is registered. */
    method RunLoop(inputs: seq<Input>) returns (ghost parts: seq<seq<Step<ClientState>>>)
      requires Inv() && forall i :: 0 <= i < |inputs| ==> WellFormed(inputs[i])
      modifies Footprint()
      ensures Inv() && Follow(old(View()), inputs, parts)
      ensures Possible(old(View()), Flat(parts)) && View() == Ran(old(View()), Flat(parts))
      ensures |parts| < |inputs| ==> Undispatchable(View(), inputs[|parts|])
      ensures Carried(old(k)) && (forall i :: 0 <= i < |inputs| && inputs[i].Ready? ==> inputs[i].env.dataOk) ==>
                |parts| == |inputs|
      ensures WorldOk(old(View())) && NoneFails(old(View()), Flat(parts)) ==> WorldOk(View())
    {
      hide Inv, View, Next, Enabled, Possible, Ran, Answers, Follow, WellFormed, Undispatchable, NoneFails, WorldOk,
           Carried;
      parts := [];
      NoStep(View());
      NothingFollows(View(), inputs);
      for i := 0 to |inputs|
        invariant Inv() && fresh(Footprint() - old(Footprint())) && |parts| == i
        invariant Follow(old(View()), inputs, parts)
        invariant Possible(old(View()), Flat(parts)) && View() == Ran(old(View()), Flat(parts))
        invariant Carried(old(k)) && (forall j :: 0 <= j < i && inputs[j].Ready? ==> inputs[j].env.dataOk) ==> Carried(k)
      {
        ghost var w := View();
        AllCarried(w, inputs[i]);
        Fields();
        SafeView();
        ghost var more;
        var dispatched;
        dispatched, more := Handle(inputs[i]);
        if !dispatched {
          break;
        }
        AnswerCarries(w, inputs[i], more);
        Fields();
        RunOn(old(View()), Flat(parts), more);
        OneMoreFollows(old(View()), inputs, parts, more);
        parts := parts + [more];
      }
      KeptAlong(old(View()), Flat(parts));
    }

    /** One thing that the loop is woken by. */
    method Handle(input: Input) returns (dispatched: bool, ghost steps: seq<Step<ClientState>>)
      requires Inv() && WellFormed(input)
      modifies Footprint()
      ensures Inv() && fresh(Footprint() - old(Footprint()))
      ensures dispatched <==> !Undispatchable(old(View()), input)
      ensures if dispatched
              then Possible(old(View()), steps) && View() == Ran(old(View()), steps) && Answers(old(View()), input, steps)
              else View() == old(View())
    {
      hide Inv, View, Next, Enabled, Possible, Ran, Answers;
      dispatched, steps := true, [];
      Fields();
      match input {
        case Listener(arrivals) => steps := HandleListenerEvent(arrivals);
        case Timer(readOk, clock) => steps := HandleTimerEvent(readOk, clock);
        case Ready(fd, ev, env) => dispatched, steps := HandleReady(fd, ev, env);
      }
    }

    /** Nothing is reported about a descriptor that is not registered, and a registration
        without data ends the program: the loop reads through its null pointer. */
    method HandleReady(fd: int, ev: Events, env: Env) returns (dispatched: bool, ghost steps: seq<Step<ClientState>>)
      requires Inv()
      modifies Footprint()
      ensures Inv() && fresh(Footprint() - old(Footprint()))
      ensures dispatched <==> !Undispatchable(old(View()), Ready(fd, ev, env))
      ensures if dispatched
              then && Possible(old(View()), steps) && View() == Ran(old(View()), steps)
                   && Answers(old(View()), Ready(fd, ev, env), steps)
              else View() == old(View())
    {
      hide Inv, View, Next, Enabled, Possible, Ran, Footprint, Registered, Separate, AuthCache.Valid;
      dispatched, steps := true, [];
      NoStep(View());
      Fields();
      if fd in k.regs {
        if k.regs[fd].NoData? {
          return false, [];
        }
        SingleStep(View(), Event(fd, ev, env));
        HandleClientEvent(fd, ev, env);
        steps := [Event(fd, ev, env)];
      }
    }
  }

  lemma AllCarried(w: World<ClientState>, input: Input)
    ensures Carried(w.k) ==> !Undispatchable(w, input)
  {
  }

  lemma KeptAlong(w: World<ClientState>, steps: seq<Step<ClientState>>)
    requires Possible(w, steps)
    ensures WorldOk(w) && NoneFails(w, steps) ==> WorldOk(Ran(w, steps))
  {
    hide WorldOk, NoneFails, Possible, Ran, Next, Enabled;
    if WorldOk(w) && NoneFails(w, steps) {
      RunKeeps(w, steps, Tick(map[]));
    }
  }

  /** The clients that the visits to the first `n` slots leave. */
  ghost function Spared(views: map<ClientState, Client>, n: int): (left: set<ClientState>)
    ensures left <= views.Keys
  {
    set c | c in views && !(views[c].expired && views[c].slot < n)
  }

  /** The registry that they leave. */
  ghost function Swept(before: seq<ClientState?>, views: map<ClientState, Client>, n: int): (after: seq<ClientState?>)
    ensures |after| == |before|
  {
    seq(|before|, i requires 0 <= i < |before| =>
      if i < n && before[i] != null && before[i] in views && views[before[i]].expired then null else before[i])
  }

  lemma SparedMeans(views: map<ClientState, Client>)
    ensures (forall c :: c in views ==> views[c].slot < MAX_CLIENTS) ==>
              Spared(views, MAX_CLIENTS) == set c | c in views && !views[c].expired
  {
  }

  lemma SweptMeans(before: seq<ClientState?>, views: map<ClientState, Client>)
    requires |before| == MAX_CLIENTS
    ensures forall i :: 0 <= i < MAX_CLIENTS ==>
              Swept(before, views, MAX_CLIENTS)[i] ==
                if before[i] != null && before[i] in views && views[before[i]].expired then null else before[i]
  {
  }

  lemma SparedAll(views: map<ClientState, Client>)
    ensures (forall c :: c in views ==> views[c].slot >= 0) ==> Spared(views, 0) == views.Keys
  {
  }

  lemma SparedRest(views: map<ClientState, Client>, n: int)
    ensures forall c :: c in views && views[c].slot >= n ==> c in Spared(views, n)
  {
  }

  /** One more slot, which `c` has, or nobody. */
  lemma OneMoreSlot(views: map<ClientState, Client>, n: int, c: ClientState?, clock: seq<int>)
    requires 0 <= n < |clock|
    requires forall d :: d in views && views[d].slot == n ==> d == c
    requires c != null ==> c in views && views[c].slot == n
    ensures Spared(views, n + 1) == if c != null && views[c].expired then Spared(views, n) - {c} else Spared(views, n)
    ensures c != null ==> c in Spared(views, n) && c !in Readings<ClientState>(views, n, clock)
    ensures Readings<ClientState>(views, n + 1, clock) ==
            if c == null then Readings<ClientState>(views, n, clock)
            else Readings<ClientState>(views, n, clock)[c := clock[n]]
  {
  }

  lemma SweptNone(before: seq<ClientState?>, views: map<ClientState, Client>)
    ensures Swept(before, views, 0) == before
  {
  }

  lemma SweptOneMore(before: seq<ClientState?>, views: map<ClientState, Client>, n: int)
    requires 0 <= n < |before|
    ensures Swept(before, views, n)[n] == before[n]
    ensures Swept(before, views, n + 1) ==
            if before[n] != null && before[n] in views && views[before[n]].expired then Swept(before, views, n)[n := null]
            else Swept(before, views, n)
  {
  }

  lemma NeverOpened(w: World<ClientState>, fd: int, reg: Reg<ClientState>)
    requires Safe(w) && w.k.NewFd(fd) == fd && fd != -1
    ensures w.k.Opened(fd).Closed(fd) == w.k
    ensures w.k.Opened(fd).Added(fd, reg).Closed(fd) == w.k
  {
    hide ClientsOk, SlotsOk;
  }

  lemma ArriveNext(w: World<ClientState>, c: ClientState, fd: int, slot: int, now: int)
    requires c !in w.views && fd >= 0 && fd !in w.k.open && FirstFree(w.views, slot)
    ensures Enabled(w, Arrive(c, fd, slot, now)) && Next(w, Arrive(c, fd, slot, now)) == Arrived(w, c, fd, slot, now)
  {
  }

  lemma EventNext(w: World<ClientState>, fd: int, ev: Events, env: Env)
    requires Enabled(w, Event(fd, ev, env))
    ensures w.k.regs[fd].Reg? && w.k.regs[fd].owner in w.views && Roomy(w.views[w.k.regs[fd].owner])
    ensures var me := w.k.regs[fd].owner;
            Next(w, Event(fd, ev, env)) == Put(w, me, EventStep(StateIn(w, me), me, w.k.regs[fd].kind, ev, env))
  {
    hide EventStep;
  }
}
