/** All the clients together, as values: the steps of the event loop, what every step keeps,
    and what follows for whole runs. */
module Worlds {
  import opened CString
  import opened Auth
  import opened AuthCaches
  import opened AuthTexts
  import opened HostHeaders
  import opened Connections
  import opened Lifecycle
  import opened LifecycleProofs
  import opened Ownership
  import opened Dispatches

  const MAX_CLIENTS: nat := 1024

  /** The registered clients, the kernel's tables, and the calls to the credential cache so far. */
  datatype World<C> = World(views: map<C, Client>, k: Kernel<C>, calls: seq<Call>)

  ghost function Start<C>(): World<C> {
    World(map[], Kernel({}, map[]), [])
  }

  // ---------- what holds between steps ----------

  /** Every client has lost no byte, reached its target only with permission, and waits. */
  ghost predicate ClientsOk<C>(views: map<C, Client>, calls: seq<Call>) {
    forall c :: c in views ==> ClientOk(views[c], calls) && Settled(views[c])
  }

  /** Every open descriptor is owned by a client, and by no two. */
  ghost predicate Partitioned<C>(views: map<C, Client>, open: set<int>) {
    && (forall fd :: fd in open ==> exists c :: c in views && fd in Fds(views[c]))
    && (forall c, d :: c in views && d in views && c != d ==> Fds(views[c]) !! Fds(views[d]))
  }

  /** Every registration names a client and a descriptor that it owns. */
  ghost predicate Tables<C>(views: map<C, Client>, k: Kernel<C>) {
    && KernelOk(k)
    && (forall c :: c in views ==> Owns(views[c], c, k))
    && (forall fd :: fd in k.regs ==> k.regs[fd].Reg? && k.regs[fd].owner in views)
  }

  /** Every client has a slot of its own. */
  ghost predicate SlotsOk<C>(views: map<C, Client>) {
    && (forall c :: c in views ==> 0 <= views[c].slot < MAX_CLIENTS)
    && (forall c, d :: c in views && d in views && views[c].slot == views[d].slot ==> c == d)
  }

  /** Only open descriptors are registered, and every registration that carries data leads to a
      client and to the side of it that it names. */
  ghost predicate Dispatching<C>(views: map<C, Client>, k: Kernel<C>) {
    && KernelOk(k)
    && (forall fd :: fd in k.regs && k.regs[fd].Reg? ==>
          k.regs[fd].owner in views && fd == SideFd(views[k.regs[fd].owner], k.regs[fd].kind))
  }

  /** What holds between any two steps of any run. */
  ghost predicate Safe<C>(w: World<C>) {
    ClientsOk(w.views, w.calls) && SlotsOk(w.views) && Dispatching(w.views, w.k)
  }

  /** And what holds as long as no target could not be registered. */
  ghost predicate WorldOk<C>(w: World<C>) {
    Safe(w) && Partitioned(w.views, w.k.open) && Tables(w.views, w.k)
  }

  // ---------- the timer ----------

  const IDLE_SECONDS: int := 10

  predicate Idle(c: Client, now: int) {
    now - c.lastActive >= IDLE_SECONDS
  }

  /** What the timer leaves of a client that had not expired before it. */
  function Marked(c: Client, now: int): Client {
    if Idle(c, now) then c.(expired := true) else c
  }

  /** The descriptors of the expired clients among those the timer visits. */
  ghost function Gone<C>(views: map<C, Client>, now: map<C, int>): set<int> {
    set c, fd | c in now && c in views && views[c].expired && fd in Fds(views[c]) :: fd
  }

  /** Those of the clients that the timer marks, when both ends are there. */
  ghost function Muted<C>(views: map<C, Client>, now: map<C, int>): set<int> {
    set c, fd | c in now && c in views && !views[c].expired && Idle(views[c], now[c])
                && views[c].clientFd != -1 && views[c].targetFd != -1 && fd in Fds(views[c]) :: fd
  }

  /** The timer visits some clients, each at a time of its own: it frees those that had
      expired before, and marks the idle ones among the others. */
  ghost function Ticked<C>(w: World<C>, now: map<C, int>): World<C> {
    w.(views := map c | c in w.views && !(c in now && w.views[c].expired) ::
                  if c in now then Marked(w.views[c], now[c]) else w.views[c],
       k := Kernel(w.k.open - Gone(w.views, now), w.k.regs - Gone(w.views, now) - Muted(w.views, now)))
  }

  /** Visiting one more client. */
  lemma TickedOneMore<C>(w: World<C>, now: map<C, int>, c: C, t: int)
    requires c in w.views && c !in now
    ensures Ticked(Ticked(w, now), map[c := t]) == Ticked(w, now[c := t])
  {
    hide Marked, Gone, Muted;
    var w1 := Ticked(w, now);
    GoneOneMore(w, now, c, t);
    MutedOneMore(w, now, c, t);
    assert Ticked(w1, map[c := t]).views == Ticked(w, now[c := t]).views;
    assert Ticked(w1, map[c := t]).k.open == Ticked(w, now[c := t]).k.open;
    assert Ticked(w1, map[c := t]).k.regs == Ticked(w, now[c := t]).k.regs;
  }

  lemma GoneOneMore<C>(w: World<C>, now: map<C, int>, c: C, t: int)
    requires c in w.views && c !in now
    ensures Gone(w.views, now[c := t]) == Gone(w.views, now) + Gone(Ticked(w, now).views, map[c := t])
  {
    hide Fds, Marked, Muted;
    assert c in Ticked(w, now).views && Ticked(w, now).views[c] == w.views[c];
  }

  lemma MutedOneMore<C>(w: World<C>, now: map<C, int>, c: C, t: int)
    requires c in w.views && c !in now
    ensures Muted(w.views, now[c := t]) == Muted(w.views, now) + Muted(Ticked(w, now).views, map[c := t])
  {
    hide Fds, Marked, Gone, Idle;
    assert c in Ticked(w, now).views && Ticked(w, now).views[c] == w.views[c];
  }

  /** One visit to one client. */
  lemma TickedOne<C>(w: World<C>, c: C, t: int)
    requires c in w.views
    ensures var v, w' := w.views[c], Ticked(w, map[c := t]);
            && (v.expired ==> w'.views == w.views - {c} && w'.k == Kernel(w.k.open - Fds(v), w.k.regs - Fds(v)))
            && (!v.expired && !Idle(v, t) ==> w' == w)
            && (!v.expired && Idle(v, t) ==>
                  && w'.views == w.views[c := v.(expired := true)]
                  && w'.k == if v.clientFd != -1 && v.targetFd != -1
                             then w.k.Deleted(v.clientFd).Deleted(v.targetFd) else w.k)
  {
    hide Idle, Fds;
    var now := map[c := t];
    OneGone(w.views, c, t);
    OneMuted(w.views, c, t);
    var v, w' := w.views[c], Ticked(w, now);
    hide Gone, Muted;
    if v.expired {
      assert w'.views == w.views - {c};
    } else if !Idle(v, t) {
      assert w'.views == w.views;
    } else {
      assert w'.views == w.views[c := v.(expired := true)];
      if v.clientFd != -1 && v.targetFd != -1 {
        TwoMuted(v, w.k);
      }
    }
  }

  /** The rule in plain numbers: one visit at time `t` marks a client that has been idle for at
      least ten seconds, and leaves any other as it was. A marked client that has a target keeps
      its two descriptors open and unregistered; one without a target stays registered. */
  lemma IdleForTenSeconds<C>(w: World<C>, c: C, t: int)
    requires c in w.views && !w.views[c].expired
    ensures var v, w' := w.views[c], Ticked(w, map[c := t]);
            && (t - v.lastActive >= 10 ==>
                  && w'.views == w.views[c := v.(expired := true)] && w'.k.open == w.k.open && w'.calls == w.calls
                  && w'.k.regs == (if v.clientFd != -1 && v.targetFd != -1
                                   then w.k.regs - {v.clientFd, v.targetFd} else w.k.regs))
            && (t - v.lastActive < 10 ==> w' == w)
  {
    hide Ticked;
    TickedOne(w, c, t);
    CallsStay(w, map[c := t]);
  }

  lemma CallsStay<C>(w: World<C>, now: map<C, int>)
    ensures Ticked(w, now).calls == w.calls
  {
  }

  /** A visit to a client that had expired frees it, whatever the time, and closes its descriptors. */
  lemma ExpiredIsFreed<C>(w: World<C>, c: C, t: int)
    requires c in w.views && w.views[c].expired
    ensures var v, w' := w.views[c], Ticked(w, map[c := t]);
            && w'.views == w.views - {c} && w'.calls == w.calls
            && (forall fd :: fd in w'.k.open <==> fd in w.k.open && (fd == -1 || (fd != v.clientFd && fd != v.targetFd)))
            && w'.k.regs == w.k.regs - ({v.clientFd, v.targetFd} - {-1})
  {
    hide Ticked;
    TickedOne(w, c, t);
    CallsStay(w, map[c := t]);
    assert Fds(w.views[c]) == {w.views[c].clientFd, w.views[c].targetFd} - {-1};
  }

  /** And a whole tick: it frees the clients that had expired before it, marks those that have been
      idle for at least ten seconds, and leaves the others. */
  lemma WholeTick<C>(w: World<C>, now: map<C, int>, c: C)
    requires now.Keys == w.views.Keys && c in w.views
    ensures var v, after := w.views[c], Ticked(w, now).views;
            && after.Keys <= w.views.Keys
            && (v.expired ==> c !in after)
            && (!v.expired && now[c] - v.lastActive >= 10 ==> c in after && after[c] == v.(expired := true))
            && (!v.expired && now[c] - v.lastActive < 10 ==> c in after && after[c] == v)
  {
    hide Gone, Muted;
  }

  lemma TwoMuted<C>(v: Client, k: Kernel<C>)
    requires v.clientFd != -1 && v.targetFd != -1
    ensures k.Deleted(v.clientFd).Deleted(v.targetFd) == Kernel(k.open, k.regs - Fds(v))
  {
    assert Fds(v) == {v.clientFd} + {v.targetFd};
  }

  lemma OneGone<C>(views: map<C, Client>, c: C, t: int)
    requires c in views
    ensures Gone(views, map[c := t]) == if views[c].expired then Fds(views[c]) else {}
  {
    hide Fds;
    var now := map[c := t];
    forall fd | fd in Fds(views[c]) && views[c].expired
      ensures fd in Gone(views, now)
    {
      assert c in now && c in views && views[c].expired && fd in Fds(views[c]);
    }
  }

  lemma OneMuted<C>(views: map<C, Client>, c: C, t: int)
    requires c in views
    ensures Muted(views, map[c := t]) ==
            if !views[c].expired && Idle(views[c], t) && views[c].clientFd != -1 && views[c].targetFd != -1
            then Fds(views[c]) else {}
  {
    hide Fds, Idle;
    var now := map[c := t];
    forall fd | fd in Fds(views[c])
      ensures fd in Muted(views, now) <==>
              !views[c].expired && Idle(views[c], t) && views[c].clientFd != -1 && views[c].targetFd != -1
    {
      assert c in now && c in views && fd in Fds(views[c]);
    }
  }

  lemma TickedNobody<C>(w: World<C>)
    ensures Ticked(w, map[]) == w
  {
    assert Ticked(w, map[]).views == w.views;
    assert Gone(w.views, map[]) == {} && Muted(w.views, map[]) == {};
  }

  // ---------- the steps ----------

  datatype Step<C> =
    | Arrive(c: C, fd: int, slot: int, now: int)
    | Event(fd: int, ev: Events, env: Env)
    | Tick(times: map<C, int>)

  /** The least slot that no client has. */
  ghost predicate FirstFree<C>(views: map<C, Client>, slot: int) {
    && 0 <= slot < MAX_CLIENTS && !HasSlot(views, slot)
    && (forall i :: 0 <= i < slot ==> HasSlot(views, i))
  }

  ghost predicate HasSlot<C>(views: map<C, Client>, slot: int) {
    exists c :: c in views && views[c].slot == slot
  }

  /** A client arrives under a name and a descriptor that are not in use, and gets the first
      free slot; an event comes from a registration that leads to a client; the timer visits
      every client. */
  ghost predicate Enabled<C>(w: World<C>, step: Step<C>) {
    match step
    case Arrive(c, fd, slot, _) => c !in w.views && fd >= 0 && fd !in w.k.open && FirstFree(w.views, slot)
    case Event(fd, _, _) =>
      && fd in w.k.regs && w.k.regs[fd].Reg?
      && w.k.regs[fd].owner in w.views && Roomy(w.views[w.k.regs[fd].owner])
    case Tick(times) => times.Keys == w.views.Keys
  }

  ghost function Arrived<C>(w: World<C>, c: C, fd: int, slot: int, now: int): World<C> {
    w.(views := w.views[c := NewClient(fd, now).(slot := slot)],
       k := w.k.Opened(fd).Added(fd, Reg(ClientFd, c, Events(true, false))))
  }

  ghost function StateIn<C>(w: World<C>, c: C): State<C>
    requires c in w.views
  {
    State(w.views[c], w.k, w.calls)
  }

  /** The world in which one client's state has become `s`. */
  ghost function Put<C>(w: World<C>, c: C, s: State<C>): World<C> {
    World(w.views[c := s.c], s.k, s.calls)
  }

  ghost function Next<C>(w: World<C>, step: Step<C>): World<C>
    requires Enabled(w, step)
  {
    match step
    case Arrive(c, fd, slot, now) => Arrived(w, c, fd, slot, now)
    case Event(fd, ev, env) =>
      var reg := w.k.regs[fd];
      Put(w, reg.owner, EventStep(StateIn(w, reg.owner), reg.owner, reg.kind, ev, env))
    case Tick(times) => Ticked(w, times)
  }

  /** The event fails to register the target that its client connects to. */
  ghost predicate Fails<C>(w: World<C>, step: Step<C>)
    requires Enabled(w, step)
  {
    step.Event? && FailsToRegister(StateIn(w, w.k.regs[step.fd].owner), step.env)
  }

  /** Dispatch is safe: an event can be taken exactly if its registration carries data. */
  lemma EveryEventIsEnabled<C>(w: World<C>, fd: int, ev: Events, env: Env)
    requires Safe(w)
    ensures Enabled(w, Event(fd, ev, env)) <==> fd in w.k.regs && w.k.regs[fd].Reg?
  {
    hide Conserved, PhaseOk, AuthOk, TunnelOk, SlotsOk;
  }

  /** A client arrives with empty buffers of 4096 bytes, waits for its request, and is watched for
      input only. */
  lemma ArrivalIs<C>(w: World<C>, c: C, fd: int, slot: int, now: int)
    requires Enabled(w, Arrive(c, fd, slot, now))
    ensures var w' := Next(w, Arrive(c, fd, slot, now));
            && w'.views == w.views[c := Client(fd, -1, false, false, slot, now, false, "", 4096, "", 4096,
                                               ReadingRequest, "", 80, false, NOTHING)]
            && w'.k.open == w.k.open + {fd} && w'.k.regs == w.k.regs[fd := Reg(ClientFd, c, Events(true, false))]
            && w'.calls == w.calls
  {
  }

  // ---------- an event keeps it ----------

  lemma Waiting(c: Client, calls: seq<Call>)
    ensures ClientOk(c, calls) && Settled(c) ==> Roomy(c) && PhaseOk(c) && !c.phase.Authenticating?
  {
  }

  lemma OthersStayOk<C>(views: map<C, Client>, calls: seq<Call>, calls': seq<Call>, me: C, c: Client)
    requires ClientsOk(views, calls) && calls <= calls' && ClientOk(c, calls') && Settled(c)
    ensures ClientsOk(views[me := c], calls')
  {
    hide ClientOk;
    forall d | d in views
      ensures ClientOk(views[d], calls')
    {
      OkStays(views[d], calls, calls');
    }
  }

  lemma EventKeepsClients<C>(w: World<C>, me: C, kind: FdKind, ev: Events, env: Env)
    requires ClientsOk(w.views, w.calls) && me in w.views
    ensures Roomy(w.views[me])
    ensures var w' := Put(w, me, EventStep(StateIn(w, me), me, kind, ev, env));
            ClientsOk(w'.views, w'.calls) && w.calls <= w'.calls && Advances(w.views[me], w'.views[me])
  {
    hide EventStep, ClientOk, Advances;
    var s := StateIn(w, me);
    Waiting(s.c, s.calls);
    EventKeepsOk(s, me, kind, ev, env);
    EventAdvances(s, me, kind, ev, env);
    EventSettles(s, me, kind, ev, env);
    var s' := EventStep(s, me, kind, ev, env);
    OthersStayOk(w.views, w.calls, s'.calls, me, s'.c);
  }

  lemma OwnedAreOpen<C>(views: map<C, Client>, k: Kernel<C>, c: C)
    requires Tables(views, k) && c in views
    ensures Fds(views[c]) <= k.open
  {
    hide Fds;
  }

  lemma FdOfSomeone<C>(views: map<C, Client>, s: State<C>, me: C, s': State<C>, fd: int) returns (c: C)
    requires me in views && views[me] == s.c && Partitioned(views, s.k.open)
    requires Apart(s, s') && fd in s'.k.open
    ensures c in views && fd in Fds(views[me := s'.c][c])
  {
    hide Fds;
    if fd in Fds(s'.c) {
      c := me;
    } else {
      assert fd in s'.k.open - Fds(s'.c);
      c :| c in views && fd in Fds(views[c]);
    }
  }

  lemma StillPartitioned<C>(views: map<C, Client>, s: State<C>, me: C, s': State<C>)
    requires me in views && views[me] == s.c && Partitioned(views, s.k.open) && Tables(views, s.k)
    requires Apart(s, s')
    ensures Partitioned(views[me := s'.c], s'.k.open)
  {
    hide Fds, Apart, Tables;
    var views' := views[me := s'.c];
    forall fd | fd in s'.k.open
      ensures exists c :: c in views' && fd in Fds(views'[c])
    {
      var c := FdOfSomeone(views, s, me, s', fd);
    }
    forall c | c in views && c != me
      ensures Fds(views[c]) !! Fds(s'.c)
    {
      OwnedAreOpen(views, s.k, c);
      StillDisjoint(s, s', Fds(views[c]));
    }
  }

  lemma StillDisjoint<C>(s: State<C>, s': State<C>, fds: set<int>)
    requires Apart(s, s') && fds <= s.k.open && fds !! Fds(s.c)
    ensures fds !! Fds(s'.c)
  {
    hide Fds;
    forall fd | fd in fds
      ensures fd !in Fds(s'.c)
    {
      assert fd in s.k.open - Fds(s.c);
    }
  }

  lemma TablesKept<C>(views: map<C, Client>, s: State<C>, me: C, s': State<C>)
    requires me in views && views[me] == s.c && Partitioned(views, s.k.open) && Tables(views, s.k)
    requires KernelOk(s'.k) && Apart(s, s') && Owns(s'.c, me, s'.k)
    ensures Tables(views[me := s'.c], s'.k)
  {
    hide Owns, Apart, Fds;
    forall c | c in views && c != me
      ensures Owns(views[c], c, s'.k)
    {
      OwnsElsewhere(s, me, s', views[c], c);
    }
    forall fd | fd in s'.k.regs
      ensures s'.k.regs[fd].Reg? && s'.k.regs[fd].owner in views
    {
      RegOfSomeone(s, me, s', fd);
    }
  }

  lemma RegOfSomeone<C>(s: State<C>, me: C, s': State<C>, fd: int)
    requires Apart(s, s') && Owns(s'.c, me, s'.k) && fd in s'.k.regs
    ensures (s'.k.regs[fd].Reg? && s'.k.regs[fd].owner == me) || (fd in s.k.regs && s'.k.regs[fd] == s.k.regs[fd])
  {
    hide Fds;
    if fd !in Fds(s'.c) {
      assert fd in s'.k.regs - Fds(s'.c);
    }
  }

  /** Any event of any client keeps the descriptors in order, unless, and only unless, it
      fails to register the descriptor of its target. */
  lemma EventKeepsTables<C>(w: World<C>, me: C, kind: FdKind, ev: Events, env: Env)
    requires ClientsOk(w.views, w.calls) && Partitioned(w.views, w.k.open) && Tables(w.views, w.k) && me in w.views
    ensures Roomy(w.views[me])
    ensures var w' := Put(w, me, EventStep(StateIn(w, me), me, kind, ev, env));
            && Partitioned(w'.views, w'.k.open)
            && (Tables(w'.views, w'.k) <==> !FailsToRegister(StateIn(w, me), env))
  {
    hide EventStep, ClientOk, Owns, Apart, Fds, Partitioned, FailsToRegister;
    var s := StateIn(w, me);
    Waiting(s.c, s.calls);
    EventOwns(s, me, kind, ev, env);
    var s' := EventStep(s, me, kind, ev, env);
    StillPartitioned(w.views, s, me, s');
    if !FailsToRegister(s, env) {
      TablesKept(w.views, s, me, s');
    } else {
      assert w.views[me := s'.c][me] == s'.c;
    }
  }

  /** And every event, with no such condition, keeps every registration leading to its client. */
  lemma EventKeepsDispatching<C>(w: World<C>, me: C, kind: FdKind, ev: Events, env: Env)
    requires ClientsOk(w.views, w.calls) && Dispatching(w.views, w.k) && me in w.views
    ensures Roomy(w.views[me])
    ensures var w' := Put(w, me, EventStep(StateIn(w, me), me, kind, ev, env)); Dispatching(w'.views, w'.k)
  {
    hide EventStep, ClientOk;
    var s := StateIn(w, me);
    Waiting(s.c, s.calls);
    EventFound(s, me, kind, ev, env);
  }

  /** Every registration carries data. */
  ghost predicate Carried<C>(k: Kernel<C>) {
    forall fd :: fd in k.regs ==> k.regs[fd].Reg?
  }

  lemma EventCarries<C>(w: World<C>, me: C, kind: FdKind, ev: Events, env: Env)
    requires ClientsOk(w.views, w.calls) && Dispatching(w.views, w.k) && me in w.views
    ensures Roomy(w.views[me])
    ensures Carried(w.k) && env.dataOk ==> Carried(EventStep(StateIn(w, me), me, kind, ev, env).k)
  {
    hide EventStep, ClientOk;
    var s := StateIn(w, me);
    Waiting(s.c, s.calls);
    EventFound(s, me, kind, ev, env);
  }

  lemma EventKeepsSlots<C>(views: map<C, Client>, me: C, c: Client)
    requires SlotsOk(views) && me in views && c.slot == views[me].slot
    ensures SlotsOk(views[me := c])
  {
  }

  // ---------- an arrival keeps it ----------

  lemma NewClientOk(fd: int, slot: int, now: int, calls: seq<Call>)
    ensures ClientOk(NewClient(fd, now).(slot := slot), calls) && Settled(NewClient(fd, now).(slot := slot))
  {
  }

  lemma ArriveKeepsTables<C>(w: World<C>, c: C, fd: int, slot: int, now: int)
    requires Partitioned(w.views, w.k.open) && Tables(w.views, w.k)
    requires c !in w.views && fd >= 0 && fd !in w.k.open
    ensures var w' := Arrived(w, c, fd, slot, now); Partitioned(w'.views, w'.k.open) && Tables(w'.views, w'.k)
  {
    var w' := Arrived(w, c, fd, slot, now);
    assert Fds(w'.views[c]) == {fd};
    hide Fds;
    forall d | d in w.views
      ensures fd !in Fds(w.views[d]) && Owns(w.views[d], d, w'.k)
    {
      assert Fds(w.views[d]) <= w.k.open;
    }
    forall e | e in w'.k.open
      ensures exists d :: d in w'.views && e in Fds(w'.views[d])
    {
      if e == fd {
        assert e in Fds(w'.views[c]);
      } else {
        var d :| d in w.views && e in Fds(w.views[d]);
        assert e in Fds(w'.views[d]);
      }
    }
  }

  lemma ArriveKeepsClients<C>(w: World<C>, c: C, fd: int, slot: int, now: int)
    requires ClientsOk(w.views, w.calls)
    ensures ClientsOk(Arrived(w, c, fd, slot, now).views, w.calls)
  {
    hide ClientOk, Settled;
    NewClientOk(fd, slot, now, w.calls);
  }

  lemma ArriveKeepsDispatching<C>(w: World<C>, c: C, fd: int, slot: int, now: int)
    requires Dispatching(w.views, w.k) && c !in w.views && fd >= 0
    ensures var w' := Arrived(w, c, fd, slot, now); Dispatching(w'.views, w'.k)
  {
  }

  lemma ArriveKeepsSlots<C>(w: World<C>, c: C, fd: int, slot: int, now: int)
    requires SlotsOk(w.views) && FirstFree(w.views, slot)
    ensures SlotsOk(Arrived(w, c, fd, slot, now).views)
  {
    forall d | d in w.views
      ensures w.views[d].slot != slot
    {
      assert !HasSlot(w.views, slot);
    }
  }

  // ---------- the timer keeps it ----------

  lemma MarkedOk(c: Client, now: int, calls: seq<Call>)
    ensures ClientOk(c, calls) && Settled(c) ==> ClientOk(Marked(c, now), calls) && Settled(Marked(c, now))
    ensures Fds(Marked(c, now)) == Fds(c) && Advances(c, Marked(c, now))
  {
    hide ClientOk, Idle, Rank;
    ExpiringOk(c, calls);
  }

  lemma ExpiringOk(c: Client, calls: seq<Call>)
    ensures ClientOk(c, calls) ==> ClientOk(c.(expired := true), calls)
  {
    hide Admitted, Directed, Conserved, PhaseOk, TunnelOk;
    SameAdmission(c, c.(expired := true), calls);
    SameBytes(c, c.(expired := true));
    ExpiringPhase(c);
  }

  lemma ExpiringPhase(c: Client)
    ensures PhaseOk(c) ==> PhaseOk(c.(expired := true))
    ensures TunnelOk(c) ==> TunnelOk(c.(expired := true))
  {
    hide Untouched, Quiet;
    ExpiringQuiet(c);
  }

  lemma ExpiringQuiet(c: Client)
    ensures Quiet(c) ==> Quiet(c.(expired := true))
    ensures Untouched(c) ==> Untouched(c.(expired := true))
  {
  }

  lemma TickKeepsClients<C>(w: World<C>, now: map<C, int>)
    requires ClientsOk(w.views, w.calls)
    ensures ClientsOk(Ticked(w, now).views, w.calls)
  {
    hide ClientOk, Settled, Marked;
    forall c | c in w.views && c in now
      ensures ClientOk(Marked(w.views[c], now[c]), w.calls) && Settled(Marked(w.views[c], now[c]))
    {
      MarkedOk(w.views[c], now[c], w.calls);
    }
  }

  /** The clients that the timer leaves keep their descriptors. */
  lemma TickSpares<C>(w: World<C>, now: map<C, int>, c: C)
    requires Partitioned(w.views, w.k.open) && c in Ticked(w, now).views
    ensures c in w.views && Fds(Ticked(w, now).views[c]) == Fds(w.views[c]) && Fds(w.views[c]) !! Gone(w.views, now)
  {
    hide Fds, Marked;
    if c in now {
      MarkedOk(w.views[c], now[c], w.calls);
    }
  }

  lemma TickKeepsPartition<C>(w: World<C>, now: map<C, int>)
    requires Partitioned(w.views, w.k.open)
    ensures Partitioned(Ticked(w, now).views, Ticked(w, now).k.open)
  {
    hide Fds, Marked;
    var w' := Ticked(w, now);
    forall c | c in w'.views
      ensures Fds(w'.views[c]) == Fds(w.views[c])
    {
      TickSpares(w, now, c);
    }
    forall fd | fd in w'.k.open
      ensures exists c :: c in w'.views && fd in Fds(w'.views[c])
    {
      var c :| c in w.views && fd in Fds(w.views[c]);
      assert c in w'.views;
    }
  }

  lemma TickKeepsOwner<C>(w: World<C>, now: map<C, int>, c: C)
    requires Partitioned(w.views, w.k.open) && Tables(w.views, w.k) && c in Ticked(w, now).views
    ensures Owns(Ticked(w, now).views[c], c, Ticked(w, now).k)
  {
    TickSpares(w, now, c);
    var v, w' := w.views[c], Ticked(w, now);
    assert w'.views[c].clientFd == v.clientFd && w'.views[c].targetFd == v.targetFd;
    hide Fds, Gone, Muted;
    assert Owns(v, c, w.k);
    forall fd | fd in w'.k.regs
      ensures fd in w.k.regs && w'.k.regs[fd] == w.k.regs[fd]
    {
    }
  }

  lemma TickKeepsTables<C>(w: World<C>, now: map<C, int>)
    requires Partitioned(w.views, w.k.open) && Tables(w.views, w.k)
    ensures Tables(Ticked(w, now).views, Ticked(w, now).k)
  {
    hide Fds, Marked, Partitioned;
    var w' := Ticked(w, now);
    forall c | c in w'.views
      ensures Owns(w'.views[c], c, w'.k)
    {
      TickKeepsOwner(w, now, c);
    }
    forall fd | fd in w'.k.regs
      ensures w'.k.regs[fd].Reg? && w'.k.regs[fd].owner in w'.views
    {
      var c := w.k.regs[fd].owner;
      assert fd in Fds(w.views[c]);
    }
  }

  lemma TickKeepsSlots<C>(w: World<C>, now: map<C, int>)
    requires SlotsOk(w.views)
    ensures SlotsOk(Ticked(w, now).views)
  {
    hide Idle, Gone, Muted;
  }

  lemma TickKeepsDispatching<C>(w: World<C>, now: map<C, int>)
    requires Dispatching(w.views, w.k)
    ensures Dispatching(Ticked(w, now).views, Ticked(w, now).k)
  {
    hide Idle, Muted;
    var w' := Ticked(w, now);
    forall fd | fd in w'.k.regs && w'.k.regs[fd].Reg?
      ensures w'.k.regs[fd].owner in w'.views
      ensures fd == SideFd(w'.views[w'.k.regs[fd].owner], w'.k.regs[fd].kind)
    {
      var c := w.k.regs[fd].owner;
      assert fd in Fds(w.views[c]);
    }
  }

  lemma TickKeepsSafe<C>(w: World<C>, now: map<C, int>)
    requires Safe(w)
    ensures Safe(Ticked(w, now))
  {
    hide ClientsOk, SlotsOk, Dispatching;
    TickKeepsClients(w, now);
    TickKeepsSlots(w, now);
    TickKeepsDispatching(w, now);
    TickedCalls(w, now);
  }

  // ---------- every step keeps it ----------

  lemma StartOk<C>()
    ensures WorldOk(Start<C>())
  {
  }

  lemma StartSafe<C>()
    ensures Safe(Start<C>())
  {
  }

  /** Every step, whatever fails, keeps the bytes and the admission of every client. */
  lemma StepKeepsClients<C>(w: World<C>, step: Step<C>)
    requires ClientsOk(w.views, w.calls) && Enabled(w, step)
    ensures ClientsOk(Next(w, step).views, Next(w, step).calls) && w.calls <= Next(w, step).calls
  {
    hide ClientsOk, EventStep, Ticked, Arrived, Advances;
    match step
    case Arrive(c, fd, slot, now) => ArriveKeepsClients(w, c, fd, slot, now); ArrivedCalls(w, c, fd, slot, now);
    case Event(fd, ev, env) => EventKeepsClients(w, w.k.regs[fd].owner, w.k.regs[fd].kind, ev, env);
    case Tick(times) => TickKeepsClients(w, times); TickedCalls(w, times);
  }

  /** And every step, whatever fails, keeps slots distinct and dispatch in order. */
  lemma StepKeepsSafe<C>(w: World<C>, step: Step<C>)
    requires Enabled(w, step)
    ensures Safe(w) ==> Safe(Next(w, step))
  {
    hide ClientsOk, SlotsOk, Dispatching, EventStep, Ticked, Arrived;
    if Safe(w) {
      StepKeepsClients(w, step);
      match step
      case Arrive(c, fd, slot, now) =>
        ArriveKeepsSlots(w, c, fd, slot, now);
        ArriveKeepsDispatching(w, c, fd, slot, now);
      case Event(fd, ev, env) =>
        var me, kind := w.k.regs[fd].owner, w.k.regs[fd].kind;
        EventKeepsClients(w, me, kind, ev, env);
        EventKeepsDispatching(w, me, kind, ev, env);
        EventKeepsSlots(w.views, me, EventStep(StateIn(w, me), me, kind, ev, env).c);
      case Tick(times) => TickKeepsSafe(w, times);
    }
  }

  lemma ArrivedCalls<C>(w: World<C>, c: C, fd: int, slot: int, now: int)
    ensures Arrived(w, c, fd, slot, now).calls == w.calls
  {
  }

  lemma TickedCalls<C>(w: World<C>, now: map<C, int>)
    ensures Ticked(w, now).calls == w.calls
  {
  }

  /** Every step keeps the ownership of descriptors, unless, and only unless, it is an event that
      fails to register the target that it connects to. */
  lemma StepKeeps<C>(w: World<C>, step: Step<C>)
    requires Enabled(w, step)
    ensures WorldOk(w) ==> (WorldOk(Next(w, step)) <==> !Fails(w, step))
  {
    hide Safe, Partitioned, Tables, EventStep, Ticked, Arrived, FailsToRegister;
    if WorldOk(w) {
      StepKeepsSafe(w, step);
      SafeClients(w);
      match step
      case Arrive(c, fd, slot, now) => ArriveKeepsTables(w, c, fd, slot, now);
      case Event(fd, ev, env) => EventKeepsTables(w, w.k.regs[fd].owner, w.k.regs[fd].kind, ev, env);
      case Tick(times) => TickKeepsPartition(w, times); TickKeepsTables(w, times);
    }
  }

  lemma SafeClients<C>(w: World<C>)
    requires Safe(w)
    ensures ClientsOk(w.views, w.calls)
  {
  }

  // ---------- runs ----------

  /** Every step of the run can be taken. */
  ghost predicate Possible<C>(w: World<C>, steps: seq<Step<C>>)
    decreases |steps|
  {
    steps == [] || (Enabled(w, steps[0]) && Possible(Next(w, steps[0]), steps[1..]))
  }

  ghost function Ran<C>(w: World<C>, steps: seq<Step<C>>): World<C>
    requires Possible(w, steps)
    decreases |steps|
  {
    if steps == [] then w else Ran(Next(w, steps[0]), steps[1..])
  }

  ghost predicate Arrives<C>(c: C, steps: seq<Step<C>>) {
    exists i :: 0 <= i < |steps| && steps[i].Arrive? && steps[i].c == c
  }

  /** Every event of the run registers the target that it connects to. */
  ghost predicate NoneFails<C>(w: World<C>, steps: seq<Step<C>>)
    requires Possible(w, steps)
    decreases |steps|
  {
    steps == [] || (!Fails(w, steps[0]) && NoneFails(Next(w, steps[0]), steps[1..]))
  }

  lemma {:induction false} RunKeepsClients<C>(w: World<C>, steps: seq<Step<C>>)
    requires ClientsOk(w.views, w.calls) && Possible(w, steps)
    ensures ClientsOk(Ran(w, steps).views, Ran(w, steps).calls)
    decreases |steps|
  {
    hide ClientsOk, Next, Enabled;
    if steps != [] {
      StepKeepsClients(w, steps[0]);
      RunKeepsClients(Next(w, steps[0]), steps[1..]);
    }
  }

  /** Safety of whole runs: whatever arrives, whatever the kernel and the user table answer,
      and whatever could not be registered. */
  lemma {:induction false} RunKeepsSafe<C>(w: World<C>, steps: seq<Step<C>>)
    requires Possible(w, steps)
    ensures Safe(w) ==> Safe(Ran(w, steps))
    decreases |steps|
  {
    hide Safe, Next, Enabled;
    if steps != [] {
      StepKeepsSafe(w, steps[0]);
      RunKeepsSafe(Next(w, steps[0]), steps[1..]);
    }
  }

  /** Ownership over whole runs: it holds until an event fails to register its target, and not
      after that event. */
  lemma {:induction false} RunKeeps<C>(w: World<C>, steps: seq<Step<C>>, step: Step<C>)
    requires WorldOk(w) && Possible(w, steps) && NoneFails(w, steps)
    ensures WorldOk(Ran(w, steps))
    ensures Enabled(Ran(w, steps), step) ==> (WorldOk(Next(Ran(w, steps), step)) <==> !Fails(Ran(w, steps), step))
    decreases |steps|
  {
    hide WorldOk, Next, Enabled, Fails;
    if steps != [] {
      StepKeeps(w, steps[0]);
      RunKeeps(Next(w, steps[0]), steps[1..], step);
    } else if Enabled(w, step) {
      StepKeeps(w, step);
    }
  }

  /** A run in which epoll takes the socket of every target. */
  ghost predicate AllRegister<C>(steps: seq<Step<C>>) {
    forall i :: 0 <= i < |steps| && steps[i].Event? ==> steps[i].env.addOk && steps[i].env.dataOk
  }

  /** As long as epoll takes the targets' sockets, every descriptor has one owner and every
      registration leads to it, after every run. */
  lemma {:induction false} RunIsSafe<C>(w: World<C>, steps: seq<Step<C>>)
    requires WorldOk(w) && Possible(w, steps) && AllRegister(steps)
    ensures WorldOk(Ran(w, steps))
    decreases |steps|
  {
    hide WorldOk, Next, Enabled, Connects;
    if steps != [] {
      StepKeeps(w, steps[0]);
      RunIsSafe(Next(w, steps[0]), steps[1..]);
    }
  }

  lemma StepCarries<C>(w: World<C>, step: Step<C>)
    requires Safe(w) && Carried(w.k) && Enabled(w, step) && (step.Event? ==> step.env.dataOk)
    ensures Carried(Next(w, step).k)
  {
    hide EventStep, ClientsOk, SlotsOk, Dispatching;
    match step
    case Arrive(_, _, _, _) =>
    case Event(fd, ev, env) => EventCarries(w, w.k.regs[fd].owner, w.k.regs[fd].kind, ev, env);
    case Tick(_) =>
  }

  /** As long as the data of the targets can be allocated, every registration carries data, so
      that every event can be dispatched. */
  lemma {:induction false} RunCarries<C>(w: World<C>, steps: seq<Step<C>>)
    requires Safe(w) && Carried(w.k) && Possible(w, steps)
    requires forall i :: 0 <= i < |steps| && steps[i].Event? ==> steps[i].env.dataOk
    ensures Carried(Ran(w, steps).k)
    decreases |steps|
  {
    hide Safe, Carried, Next, Enabled;
    if steps != [] {
      StepCarries(w, steps[0]);
      StepKeepsSafe(w, steps[0]);
      RunCarries(Next(w, steps[0]), steps[1..]);
    }
  }

  lemma StepAdvances<C>(w: World<C>, step: Step<C>, c: C)
    requires ClientsOk(w.views, w.calls) && Enabled(w, step) && c in w.views && c in Next(w, step).views
    ensures Advances(w.views[c], Next(w, step).views[c])
    ensures w.views[c].expired ==> Next(w, step).views[c] == w.views[c]
  {
    hide EventStep, ClientOk, Advances, Marked;
    match step
    case Arrive(_, _, _, _) => SameAdvances(w.views[c]);
    case Event(fd, ev, env) =>
      var me, kind := w.k.regs[fd].owner, w.k.regs[fd].kind;
      EventKeepsClients(w, me, kind, ev, env);
      EventAdvances(StateIn(w, me), me, kind, ev, env);
      SameAdvances(w.views[c]);
    case Tick(times) => MarkedOk(w.views[c], times[c], w.calls);
  }

  lemma SameAdvances(c: Client)
    ensures Advances(c, c)
  {
  }

  lemma {:induction false} GoneStaysGone<C>(w: World<C>, steps: seq<Step<C>>, c: C)
    requires Possible(w, steps) && c !in w.views && !Arrives(c, steps)
    ensures c !in Ran(w, steps).views
    decreases |steps|
  {
    hide EventStep;
    if steps != [] {
      assert !Arrives(c, steps[1..]) by {
        forall i | 0 <= i < |steps[1..]| ensures steps[1..][i] == steps[i + 1] {}
      }
      assert c !in Next(w, steps[0]).views;
      GoneStaysGone(Next(w, steps[0]), steps[1..], c);
    }
  }

  /** Along every run a client only moves forward, and once expired it never changes. */
  lemma {:induction false} RunAdvances<C>(w: World<C>, steps: seq<Step<C>>, c: C)
    requires ClientsOk(w.views, w.calls) && Possible(w, steps) && !Arrives(c, steps)
    requires c in w.views && c in Ran(w, steps).views
    ensures Advances(w.views[c], Ran(w, steps).views[c])
    ensures w.views[c].expired ==> Ran(w, steps).views[c] == w.views[c]
    decreases |steps|
  {
    hide ClientsOk, Next, Enabled, Advances;
    SameAdvances(w.views[c]);
    if steps != [] {
      var w' := Next(w, steps[0]);
      assert !Arrives(c, steps[1..]) by {
        forall i | 0 <= i < |steps[1..]| ensures steps[1..][i] == steps[i + 1] {}
      }
      StepKeepsClients(w, steps[0]);
      if c !in w'.views {
        GoneStaysGone(w', steps[1..], c);
      } else {
        StepAdvances(w, steps[0], c);
        RunAdvances(w', steps[1..], c);
        AdvancesTransitive(w.views[c], w'.views[c], Ran(w, steps).views[c]);
      }
    }
  }

  /** One run after another is a run. */
  lemma {:induction false} RunOn<C>(w: World<C>, steps: seq<Step<C>>, more: seq<Step<C>>)
    requires Possible(w, steps) && Possible(Ran(w, steps), more)
    ensures Possible(w, steps + more) && Ran(w, steps + more) == Ran(Ran(w, steps), more)
    decreases |steps|
  {
    hide Next, Enabled;
    if steps == [] {
      assert steps + more == more;
    } else {
      assert (steps + more)[1..] == steps[1..] + more;
      RunOn(Next(w, steps[0]), steps[1..], more);
    }
  }

  lemma OneStep<C>(w: World<C>, step: Step<C>)
    requires Enabled(w, step)
    ensures Possible(w, [step]) && Ran(w, [step]) == Next(w, step)
  {
    hide Next, Enabled;
    assert [step][1..] == [];
  }

  lemma NoStep<C>(w: World<C>)
    ensures Possible(w, []) && Ran(w, []) == w
  {
  }

  lemma OneTick<C>(w: World<C>, now: map<C, int>)
    requires now.Keys == w.views.Keys
    ensures Possible(w, [Tick(now)]) && Ran(w, [Tick(now)]) == Ticked(w, now)
  {
    hide Ticked;
    OneStep(w, Tick(now));
  }

  // ---------- what follows ----------

  /** Only users reach targets: in every run, if a client has a target socket, exchanged a byte
      with a target, tried to connect or was sent a tunnel answer, then a call granted the
      request that it had sent, and its target is the one that this request names. The
      credentials of that request decode to a user and a password, and in that very call or
      less than 3600 seconds before the user table had this user with this password. */
  lemma OnlyUsersReachTargets<C>(steps: seq<Step<C>>, c: C) returns (i: nat, j: nat, u: User)
    requires Possible(Start<C>(), steps) && c in Ran(Start<C>(), steps).views
    requires TouchedTarget(Ran(Start<C>(), steps).views[c])
    ensures var w := Ran(Start<C>(), steps);
            && j <= i < |w.calls| && w.views[c].h.auth == Some(i)
            && w.calls[i].request <= w.views[c].h.fromClient && StrStr(w.calls[i].request, "\r\n\r\n").Some?
            && HostPort(w.calls[i].request) == Some((w.views[c].host, w.views[c].port))
            && Backs(w.calls, j, i) && (j < i ==> w.calls[i].now < w.calls[j].storeTime + 3600)
            && Credentials(w.calls[i].request).Some? && Shows(Credentials(w.calls[i].request).value, u)
            && HasRow(w.calls[j].db, u)
  {
    hide Next, Enabled, TouchedTarget, Conserved, PhaseOk, TunnelOk, Backs, Granted, HostPort, Credentials, Shows;
    var w := Ran(Start<C>(), steps);
    RunKeepsClients(Start<C>(), steps);
    i := w.views[c].h.auth.value;
    GrantIsBacked(w.calls, i);
    j :| Backs(w.calls, j, i);
    u := BackedUser(w.calls, j, i);
  }

  /** No byte is lost in any run: what a plain client sent is what its target got, and what
      waits in the buffer; and the other way round. */
  lemma NoByteIsLost<C>(steps: seq<Step<C>>, c: C)
    requires Possible(Start<C>(), steps) && c in Ran(Start<C>(), steps).views
    requires !Ran(Start<C>(), steps).views[c].isHttps
    ensures var v := Ran(Start<C>(), steps).views[c];
            && v.h.fromClient == v.h.toTarget + v.request
            && (v.h.auth.Some? ==> v.h.fromTarget == v.h.toClient + v.response)
  {
    hide Next, Enabled, AuthOk, PhaseOk;
    RunKeepsClients(Start<C>(), steps);
    var v := Ran(Start<C>(), steps).views[c];
    assert ClientOk(v, Ran(Start<C>(), steps).calls);
    assert v.h.fromClient[0..] == v.h.fromClient && v.h.toClient[0..] == v.h.toClient;
  }

  /** The same for a tunnel, from the moment it forwards: the marks stay where they are. */
  lemma NoTunnelledByteIsLost<C>(w: World<C>, steps: seq<Step<C>>, c: C)
    requires ClientsOk(w.views, w.calls) && Possible(w, steps) && !Arrives(c, steps)
    requires c in w.views && c in Ran(w, steps).views && w.views[c].phase == Forwarding
    ensures var h, v := w.views[c].h, Ran(w, steps).views[c];
            && h.skipped <= |h.fromClient| && h.fromClient <= v.h.fromClient
            && v.h.fromClient[h.skipped..] == v.h.toTarget + v.request
            && h.greeting <= |h.toClient| && h.toClient <= v.h.toClient
            && v.h.fromTarget == v.h.toClient[h.greeting..] + v.response
  {
    hide Next, Enabled, AuthOk, PhaseOk, TunnelOk;
    RunKeepsClients(w, steps);
    RunAdvances(w, steps, c);
    assert ClientOk(w.views[c], w.calls) && ClientOk(Ran(w, steps).views[c], Ran(w, steps).calls);
  }

  /** The step in which a client begins to forward is an event of its own. */
  lemma BeginsToForward<C>(w: World<C>, step: Step<C>, c: C)
    requires ClientsOk(w.views, w.calls) && Enabled(w, step) && c in w.views && c in Next(w, step).views
    requires w.views[c].phase == Connecting && Next(w, step).views[c].phase == Forwarding
    ensures step.Event? && Next(w, step).views[c] == Joined(w.views[c], step.env)
  {
    hide ReadStep, AuthStep, InitStep, ForwardStep, ClientOk, Joined, ForwardingRegs;
  }

  /** A tunnel in any run: once it forwards, what its target got, and what waits, is what the
      client has sent since; what it had sent before is discarded. And what it gets after the
      answer is what the target sent. */
  lemma TunnelCarriesAll<C>(before: seq<Step<C>>, step: Step<C>, after: seq<Step<C>>, c: C)
    requires Possible(Start<C>(), before) && Enabled(Ran(Start<C>(), before), step)
    requires var w := Ran(Start<C>(), before);
             c in w.views && w.views[c].phase == Connecting && w.views[c].isHttps
    requires var w' := Next(Ran(Start<C>(), before), step);
             && c in w'.views && w'.views[c].phase == Forwarding
             && Possible(w', after) && !Arrives(c, after) && c in Ran(w', after).views
    ensures var w := Ran(Start<C>(), before);
            var sent, answered := w.views[c].h.fromClient, Next(w, step).views[c].h.toClient;
            var v := Ran(Next(w, step), after).views[c];
            && step.Event? && answered == w.views[c].h.toClient + Sent(ESTABLISHED, step.env.answered)
            && sent <= v.h.fromClient && v.h.fromClient[|sent|..] == v.h.toTarget + v.request
            && answered <= v.h.toClient && v.h.fromTarget == v.h.toClient[|answered|..] + v.response
  {
    hide Next, Enabled, ClientOk, Sent, Possible, Ran;
    RunKeepsClients(Start<C>(), before);
    var w := Ran(Start<C>(), before);
    BeginsToForward(w, step, c);
    StepKeepsClients(w, step);
    NoTunnelledByteIsLost(Next(w, step), after, c);
  }

  /** Two-phase expiry: the tick that finds a client idle marks it and frees nothing of it; the
      next one finds it as it was, and frees it with its descriptors. */
  lemma IdleIsReaped<C>(w: World<C>, now: map<C, int>, steps: seq<Step<C>>, later: map<C, int>, c: C)
    requires ClientsOk(w.views, w.calls) && now.Keys == w.views.Keys
    requires c in w.views && !w.views[c].expired && now[c] - w.views[c].lastActive >= 10
    requires Possible(Ticked(w, now), steps) && !Arrives(c, steps)
    requires later.Keys == Ran(Ticked(w, now), steps).views.Keys
    ensures c in Ticked(w, now).views && Ticked(w, now).views[c] == w.views[c].(expired := true)
    ensures var w' := Ran(Ticked(w, now), steps);
            c !in Ticked(w', later).views && (c in w'.views ==> Fds(w.views[c]) !! Ticked(w', later).k.open)
  {
    hide Next, Enabled, ClientsOk, Possible, Ran;
    TickKeepsClients(w, now);
    var w' := Ran(Ticked(w, now), steps);
    if c in w'.views {
      RunAdvances(Ticked(w, now), steps, c);
      assert Fds(w'.views[c]) == Fds(w.views[c]);
    }
  }
}
