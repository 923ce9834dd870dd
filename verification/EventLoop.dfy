/** What wakes the event loop, and the steps that each of it causes. */
module EventLoops {
  import opened Lifecycle
  import opened Ownership
  import opened Worlds

  /** One accept: its descriptor, -1 when there is none, and whether registering succeeds. */
  datatype Arrival = Arrival(fd: int, stateOk: bool, dataOk: bool, addOk: bool, now: int)

  /** What wakes the loop: the listening socket, the timer, or a client's or target's descriptor. */
  datatype Input =
    | Listener(arrivals: seq<Arrival>)
    | Timer(readOk: bool, clock: seq<int>)
    | Ready(fd: int, ev: Events, env: Env)

  /** The timer reads the clock once for each slot. */
  ghost predicate WellFormed(input: Input) {
    input.Timer? ==> |input.clock| == MAX_CLIENTS
  }

  /** An arrival with a new descriptor, for which nothing fails and a slot is free. */
  ghost predicate Admissible<C>(w: World<C>, a: Arrival) {
    a.fd >= 0 && a.fd !in w.k.open && a.stateOk && a.dataOk && a.addOk && |w.views| < MAX_CLIENTS
  }

  ghost predicate ArrivesBy<C>(step: Step<C>, a: Arrival) {
    step.Arrive? && step.fd == a.fd && step.now == a.now
  }

  /** The reading of the clock that each client gets: the one for its slot, if that is below `n`. */
  ghost function Readings<C>(views: map<C, Client>, n: int, clock: seq<int>): map<C, int>
    requires n <= |clock|
  {
    map c | c in views && 0 <= views[c].slot < n :: clock[views[c].slot]
  }

  /** The loop is handed a registration without data, which it cannot dispatch. */
  ghost predicate Undispatchable<C>(w: World<C>, input: Input) {
    input.Ready? && input.fd in w.k.regs && w.k.regs[input.fd].NoData?
  }

  /** The steps that one input causes: arrivals in order until the first that is not
      admissible, a tick in which each client gets the reading for its slot, or the event of a
      registered descriptor. */
  ghost predicate Answers<C>(w: World<C>, input: Input, steps: seq<Step<C>>)
    requires WellFormed(input) && Possible(w, steps)
  {
    match input
    case Listener(arrivals) =>
      && |steps| <= |arrivals| && (forall i :: 0 <= i < |steps| ==> ArrivesBy(steps[i], arrivals[i]))
      && (|steps| < |arrivals| ==> !Admissible(Ran(w, steps), arrivals[|steps|]))
    case Timer(readOk, clock) => steps == if readOk then [Tick(Readings(w.views, MAX_CLIENTS, clock))] else []
    case Ready(fd, ev, env) => steps == if fd in w.k.regs then [Event(fd, ev, env)] else []
  }

  ghost function Flat<C>(parts: seq<seq<Step<C>>>): seq<Step<C>> {
    if parts == [] then [] else Flat(parts[..|parts| - 1]) + parts[|parts| - 1]
  }

  /** Each part of the run is what its input causes in the world that the parts before it left. */
  ghost predicate Follow<C>(w: World<C>, inputs: seq<Input>, parts: seq<seq<Step<C>>>) {
    && |parts| <= |inputs|
    && forall i :: 0 <= i < |parts| ==>
         && Possible(w, Flat(parts[..i])) && Possible(Ran(w, Flat(parts[..i])), parts[i])
         && WellFormed(inputs[i]) && Answers(Ran(w, Flat(parts[..i])), inputs[i], parts[i])
  }

  lemma TimerAnswers<C>(w: World<C>, clock: seq<int>)
    requires |clock| == MAX_CLIENTS
    ensures Possible(w, []) && Answers(w, Timer(false, clock), [])
    ensures var steps := [Tick(Readings(w.views, MAX_CLIENTS, clock))];
            Possible(w, steps) ==> Answers(w, Timer(true, clock), steps)
  {
    hide Enabled, Next, Readings;
  }

  /** An input for which the data of a target is allocated leaves every registration with data. */
  lemma AnswerCarries<C>(w: World<C>, input: Input, steps: seq<Step<C>>)
    requires Safe(w) && WellFormed(input) && Possible(w, steps) && Answers(w, input, steps)
    ensures Carried(w.k) && (input.Ready? ==> input.env.dataOk) ==> Carried(Ran(w, steps).k)
  {
    hide Safe, Carried, Possible, Ran, Admissible, Readings;
    if Carried(w.k) && (input.Ready? ==> input.env.dataOk) {
      RunCarries(w, steps);
    }
  }

  lemma NothingFollows<C>(w: World<C>, inputs: seq<Input>)
    ensures Follow(w, inputs, [])
  {
  }

  lemma OneMoreFollows<C>(w: World<C>, inputs: seq<Input>, parts: seq<seq<Step<C>>>, more: seq<Step<C>>)
    requires Follow(w, inputs, parts) && |parts| < |inputs| && Possible(w, Flat(parts))
    requires Possible(Ran(w, Flat(parts)), more)
    requires WellFormed(inputs[|parts|]) && Answers(Ran(w, Flat(parts)), inputs[|parts|], more)
    ensures Follow(w, inputs, parts + [more]) && Flat(parts + [more]) == Flat(parts) + more
  {
    hide Answers, Possible, Ran, WellFormed;
    var parts' := parts + [more];
    assert parts'[..|parts|] == parts;
    forall i | 0 <= i < |parts|
      ensures parts'[..i] == parts[..i]
    {
    }
  }

  lemma SingleStep<C>(w: World<C>, step: Step<C>)
    ensures Enabled(w, step) ==> Possible(w, [step]) && Ran(w, [step]) == Next(w, step)
  {
    hide Next, Enabled;
    if Enabled(w, step) {
      OneStep(w, step);
    }
  }

  lemma ReadingsNone<C>(views: map<C, Client>, clock: seq<int>)
    ensures Readings(views, 0, clock) == map[]
  {
  }

  lemma ReadingsAll<C>(views: map<C, Client>, clock: seq<int>)
    ensures (forall c :: c in views ==> 0 <= views[c].slot < |clock|) ==>
              Readings(views, |clock|, clock).Keys == views.Keys
  {
  }
}
