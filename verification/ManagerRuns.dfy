/**
 What holds of every run of the manager, for each station from its creation to the end of its thread and for
 the events the main thread is given.
 */
module ManagerRuns {
  import opened Bytes
  import opened Json
  import opened StatusCache
  import opened Urls
  import opened Managers
  import opened Counting
  import opened ManagerPool
  import opened ManagerRequests
  import opened ManagerStreams
  import opened ManagerRegistry

  // ----- events in order -----

  function EventsOf(pushes: seq<Push>): seq<PawnEvent> {
    seq(|pushes|, i requires 0 <= i < |pushes| => pushes[i].event)
  }

  /** The events pushed by one station's stream thread. */
  function OfStream(id: nat, pushes: seq<Push>): seq<PawnEvent> {
    if pushes == [] then []
    else
      OfStream(id, pushes[..|pushes| - 1])
      + if pushes[|pushes| - 1].author == ByStream(id) then [pushes[|pushes| - 1].event] else []
  }

  lemma {:induction false} OfStreamAppend(id: nat, xs: seq<Push>, ys: seq<Push>)
    ensures OfStream(id, xs + ys) == OfStream(id, xs) + OfStream(id, ys)
    decreases |ys|
  {
    if ys == [] {
      assert xs + ys == xs;
    } else {
      assert (xs + ys)[..|xs + ys| - 1] == xs + ys[..|ys| - 1];
      OfStreamAppend(id, xs, ys[..|ys| - 1]);
    }
  }

  lemma {:induction false} OfStreamSigned(id: nat, author: Author, out: seq<PawnEvent>)
    ensures OfStream(id, Signed(author, out)) == if author == ByStream(id) then out else []
    decreases |out|
  {
    if out != [] {
      var front := out[..|out| - 1];
      assert Signed(author, out)[..|out| - 1] == Signed(author, front);
      OfStreamSigned(id, author, front);
    }
  }

  predicate Conserved(s: State) {
    s.delivered + s.dispatch == EventsOf(s.pushed)
  }

  /** What is recorded as pushed by a station's thread is what the thread recorded. */
  predicate StreamAgrees(s: State, id: nat) {
    OfStream(id, s.pushed) == if id < |s.created| then Pushes(s.created[id].trace) else []
  }

  lemma Deliver(s: State, t: State, author: Author, out: seq<PawnEvent>)
    requires Conserved(s) && t.delivered == s.delivered
    requires t.dispatch == s.dispatch + out && t.pushed == s.pushed + Signed(author, out)
    ensures Conserved(t)
    ensures forall id: nat ::
              OfStream(id, t.pushed) == OfStream(id, s.pushed) + if author == ByStream(id) then out else []
  {
    assert EventsOf(t.pushed) == EventsOf(s.pushed) + out;
    assert s.delivered + (s.dispatch + out) == s.delivered + s.dispatch + out;
    forall id: nat
      ensures OfStream(id, t.pushed) == OfStream(id, s.pushed) + if author == ByStream(id) then out else []
    {
      OfStreamAppend(id, s.pushed, Signed(author, out));
      OfStreamSigned(id, author, out);
    }
  }

  lemma WorkerKeepsOrder(s: State, w: nat, act: WorkerAct, id: nat)
    requires WorkerMay(s, w, act) && Conserved(s) && StreamAgrees(s, id)
    ensures Conserved(Work(s, w, act)) && StreamAgrees(Work(s, w, act), id)
  {
    hide Answers, RegisteredEvent, ErrorEvent, OfStream, EventsOf, Pushes, Conserved;
    var t := Work(s, w, act);
    if act.PushAnswer? {
      Deliver(s, t, ByWorker, s.workers[w].pc.todo[..1]);
    } else {
      assert t.delivered == s.delivered && t.dispatch == s.dispatch && t.pushed == s.pushed && t.created == s.created;
      StillConserved(s, t);
    }
  }

  lemma StillConserved(s: State, t: State)
    requires Conserved(s) && t.delivered + t.dispatch == s.delivered + s.dispatch && t.pushed == s.pushed
    ensures Conserved(t)
  {
  }

  lemma StreamKeepsOrder(s: State, k: nat, act: StreamAct, id: nat)
    requires StreamMay(s, k, act) && StationFits(k, s.created[k]) && Conserved(s) && StreamAgrees(s, id)
    ensures Conserved(StreamStep(s, k, act)) && StreamAgrees(StreamStep(s, k, act), id)
  {
    hide Moving, OfStream, EventsOf, Pushes, Conserved, InOrder, Closes, BacksOff, Pauses, AsksInTime,
         Links;
    var st := s.created[k];
    var t := StreamStep(s, k, act);
    assert StreamTrue(st.pc) by { FitsIsTrue(k, st); }
    MoveKeepsPushing(k, st, st.stopping || !s.running, k in s.stations, ClientOf(s.config, s.url), act);
    Deliver(s, t, ByStream(k), MoveOf(s, k, act).out);
  }

  lemma FitsIsTrue(id: nat, st: Station)
    requires StationFits(id, st)
    ensures StreamTrue(st.pc) && PushesWhatIsDue(id, st)
  {
  }

  lemma MainKeepsOrder(s: State, act: MainAct, id: nat)
    requires |s.callers| >= STREAMS && MainMay(s, act) && RegistryFits(s) && Conserved(s) && StreamAgrees(s, id)
    ensures Conserved(Mainly(s, act)) && StreamAgrees(Mainly(s, act), id)
  {
    hide ContinueMain, LiveIds, Usable, ConnectionDiffers, OfStream, EventsOf, Pushes, LifeOf;
    var t := Mainly(s, act);
    match act
    case Continue => ContinuingKeepsOrder(s, id);
    case Tick => assert t.delivered + t.dispatch == s.delivered + s.dispatch;
    case Create(_) => NoPushesYet();
    case _ =>
  }

  lemma NoPushesYet()
    ensures Pushes([]) == []
  {
  }

  lemma ContinuingKeepsOrder(s: State, id: nat)
    requires |s.callers| >= STREAMS && CanContinue(s) && RegistryFits(s) && Conserved(s) && StreamAgrees(s, id)
    ensures Conserved(ContinueMain(s)) && StreamAgrees(ContinueMain(s), id)
  {
    hide Stop, Start, OfStream, Pushes, StationFits;
    var t := ContinueMain(s);
    ContinuingChanges(s);
    if s.main.Awaiting? {
      PushesSnoc(s.created[s.main.id].trace, Unregistered);
    }
    if InStop(s.main) {
      StopChanges(s);
    } else if InStart(s.main) {
      StartChanges(s);
    }
  }

  lemma StepKeepsEvents(s: State, step: Step, id: nat)
    requires PoolShape(s) && RegistryFits(s) && Enabled(s, step) && Conserved(s) && StreamAgrees(s, id)
    ensures Conserved(Do(s, step)) && StreamAgrees(Do(s, step), id)
  {
    hide Work, Mainly, StreamStep, StreamMay, WorkerMay, MainMay, OfStream, EventsOf, Pushes, StationFits;
    match step
    case WorkerDoes(w, act) => WorkerKeepsOrder(s, w, act, id);
    case MainDoes(act) => MainKeepsOrder(s, act, id);
    case StreamDoes(k, act) =>
      StreamIndex(s, k, act);
      assert LifeOf(s, k);
      StreamKeepsOrder(s, k, act, id);
    case _ =>
  }

  lemma StreamIndex(s: State, id: nat, act: StreamAct)
    requires StreamMay(s, id, act)
    ensures id < |s.created|
  {
  }

  // ----- UnregisterStation -----

  function Unregisters(id: nat): Job -> bool {
    (job: Job) => job.kind == JobUnregister && job.station == id
  }

  function HandsUnregister(id: nat): Caller -> bool {
    (c: Caller) => c.InHand? && c.job.kind == JobUnregister && c.job.station == id
  }

  predicate IsUnregistered(act: Act) {
    act == Unregistered
  }

  /** The UnregisterStation jobs of a station, pushed or about to be, are the ones its trace has. */
  predicate UnregistersAgree(s: State, id: nat) {
    Count(s.enqueued, Unregisters(id)) + Count(s.callers, HandsUnregister(id))
    == if id < |s.created| then Count(s.created[id].trace, IsUnregistered) else 0
  }

  lemma WorkerKeepsUnregisters(s: State, w: nat, act: WorkerAct, id: nat)
    requires WorkerMay(s, w, act) && UnregistersAgree(s, id)
    ensures UnregistersAgree(Work(s, w, act), id)
  {
    hide Answers, RegisteredEvent, ErrorEvent, Count, Unregisters, HandsUnregister;
  }

  lemma CallerKeepsUnregisters(s: State, c: nat, act: CallerAct, id: nat)
    requires CallerMay(s, c, act) && UnregistersAgree(s, id)
    ensures UnregistersAgree(Call(s, c, act), id)
  {
    hide Count;
    var t := Call(s, c, act);
    CountUpdate(s.callers, c, t.callers[c], HandsUnregister(id));
    if act.PushJob? {
      CountSnoc(s.enqueued, s.callers[c].job, Unregisters(id));
    }
  }

  lemma StreamKeepsUnregisters(s: State, k: nat, act: StreamAct, id: nat)
    requires StreamMay(s, k, act) && UnregistersAgree(s, id)
    ensures UnregistersAgree(StreamStep(s, k, act), id)
  {
    hide Count, Moving, Unregisters;
    var st := s.created[k];
    var t := StreamStep(s, k, act);
    AskingTakesRest(s, k, act);
    if MoveOf(s, k, act).asks {
      CountUpdate(s.callers, STREAMS + k, Found(k), HandsUnregister(id));
    }
    MoveAddsOne(k, st, st.stopping || !s.running, k in s.stations, ClientOf(s.config, s.url), act);
    if t.created[k].trace != st.trace {
      var a :| a != Unregistered && t.created[k].trace == st.trace + [a];
      CountSnoc(st.trace, a, IsUnregistered);
    }
  }

  lemma EndKeepsUnregisters(s: State, id: nat)
    requires |s.callers| >= STREAMS && CanContinue(s) && s.callers[MAIN] == Resting && UnregistersAgree(s, id)
    requires InEnd(s.main)
    ensures UnregistersAgree(End(s), id)
  {
    hide Count, Unregisters;
    var t := End(s);
    CountUpdate(s.callers, MAIN, t.callers[MAIN], HandsUnregister(id));
    if s.main.Awaiting? {
      CountSnoc(s.created[s.main.id].trace, Unregistered, IsUnregistered);
    }
  }

  lemma ContinuingKeepsUnregisters(s: State, id: nat)
    requires |s.callers| >= STREAMS && CanContinue(s) && s.callers[MAIN] == Resting && UnregistersAgree(s, id)
    ensures UnregistersAgree(ContinueMain(s), id)
  {
    hide UnregistersAgree, Stop, Start, End;
    if InStop(s.main) {
      StopChanges(s);
      SameUnregisters(s, Stop(s), id);
    } else if InStart(s.main) {
      StartKeepsUnregisters(s, id);
    } else if s.main != Outside {
      EndKeepsUnregisters(s, id);
    }
  }

  lemma SameUnregisters(s: State, t: State, id: nat)
    requires t.enqueued == s.enqueued && t.callers == s.callers && t.created == s.created && UnregistersAgree(s, id)
    ensures UnregistersAgree(t, id)
  {
  }

  lemma StartKeepsUnregisters(s: State, id: nat)
    requires |s.callers| >= STREAMS && InStart(s.main) && s.callers[MAIN] == Resting && UnregistersAgree(s, id)
    ensures UnregistersAgree(Start(s), id)
  {
    hide Count, Unregisters, PoolSize;
    CountUpdate(s.callers, MAIN, Start(s).callers[MAIN], HandsUnregister(id));
  }

  lemma MainKeepsUnregisters(s: State, act: MainAct, id: nat)
    requires |s.callers| == STREAMS + |s.created| && MainMay(s, act) && UnregistersAgree(s, id)
    ensures UnregistersAgree(Mainly(s, act), id)
  {
    hide Count, Unregisters, ContinueMain, Asking, ShuttingDown, Destroying, Configuring, Reloading;
    var t := Mainly(s, act);
    match act
    case Continue => ContinuingKeepsUnregisters(s, id);
    case Create(_) =>
      CountSnoc(s.callers, Resting, HandsUnregister(id));
      CountNone([], IsUnregistered);
    case _ =>
      OthersUnregisterNothing(s, act, id);
      CountUpdate(s.callers, MAIN, t.callers[MAIN], HandsUnregister(id));
  }

  lemma AskingUnregistersNothing(s: State, act: MainAct, id: nat)
    requires |s.callers| >= STREAMS && MainMay(s, act) && !act.Continue?
    ensures var t := Asking(s, act);
            && t.enqueued == s.enqueued && t.created == s.created && |t.callers| == |s.callers|
            && t.callers == s.callers[MAIN := t.callers[MAIN]]
            && !HandsUnregister(id)(s.callers[MAIN]) && !HandsUnregister(id)(t.callers[MAIN])
  {
    hide CanContinue;
  }

  lemma OthersUnregisterNothing(s: State, act: MainAct, id: nat)
    requires |s.callers| >= STREAMS && MainMay(s, act) && !act.Continue? && !act.Create?
    ensures var t := Mainly(s, act);
            && t.enqueued == s.enqueued && t.created == s.created && |t.callers| == |s.callers|
            && t.callers == s.callers[MAIN := t.callers[MAIN]]
            && !HandsUnregister(id)(s.callers[MAIN]) && !HandsUnregister(id)(t.callers[MAIN])
  {
    hide LiveIds, Usable, ConnectionDiffers, Asking, CanContinue;
    AskingUnregistersNothing(s, act, id);
  }

  lemma StepKeepsUnregisters(s: State, step: Step, id: nat)
    requires PoolShape(s) && Enabled(s, step) && UnregistersAgree(s, id)
    ensures UnregistersAgree(Do(s, step), id)
  {
    hide Work, Call, Mainly, StreamStep, StreamMay, WorkerMay, CallerMay, MainMay, Count, Unregisters;
    match step
    case WorkerDoes(w, act) => WorkerKeepsUnregisters(s, w, act, id);
    case CallerDoes(c, act) => CallerKeepsUnregisters(s, c, act, id);
    case MainDoes(act) => MainKeepsUnregisters(s, act, id);
    case PollerDoes(act) => CountUpdate(s.callers, POLLER, Do(s, step).callers[POLLER], HandsUnregister(id));
    case StreamDoes(k, act) => StreamKeepsUnregisters(s, k, act, id);
  }

  // ----- over every run -----

  ghost predicate AllFits(s: State) {
    && PoolShape(s) && RegistryFits(s) && SettingsFit(s) && Conserved(s)
    && forall id: nat :: StreamAgrees(s, id) && UnregistersAgree(s, id)
  }

  lemma StartsFit(s: State)
    requires Init(s)
    ensures AllFits(s)
  {
    forall id: nat ensures StreamAgrees(s, id) && UnregistersAgree(s, id) {
      CountNone(s.enqueued, Unregisters(id));
      CountNone(s.callers, HandsUnregister(id));
    }
  }

  lemma StepKeepsAll(s: State, step: Step)
    requires AllFits(s) && Enabled(s, step)
    ensures AllFits(Do(s, step))
  {
    hide Do, Enabled, PoolShape, RegistryFits, SettingsFit, Conserved, StreamAgrees, UnregistersAgree;
    StepKeepsShape(s, step);
    StepKeepsRegistry(s, step);
    StepKeepsSettings(s, step);
    StepKeepsEvents(s, step, 0);
    forall id: nat ensures StreamAgrees(Do(s, step), id) && UnregistersAgree(Do(s, step), id) {
      StepKeepsEvents(s, step, id);
      StepKeepsUnregisters(s, step, id);
    }
  }

  lemma {:induction false} AllAlongRun(states: seq<State>, i: nat)
    requires Run(states) && i < |states|
    ensures AllFits(states[i])
  {
    hide Enabled, Do, AllFits;
    if i == 0 {
      StartsFit(states[0]);
    } else {
      AllAlongRun(states, i - 1);
      var step := StepTaken(states, i - 1);
      StepKeepsAll(states[i - 1], step);
    }
  }

  lemma OneStationFits(states: seq<State>, i: nat, id: nat)
    requires Run(states) && i < |states| && id < |states[i].created|
    ensures LifeOf(states[i], id)
  {
    hide PoolShape, SettingsFit, Conserved, StreamAgrees, UnregistersAgree, LifeOf;
    AllAlongRun(states, i);
  }

  /** A stream thread registers before it first subscribes and once between any two subscriptions; only the first
      registration is not a reconnect. */
  lemma RegistersBeforeEachSubscribe(states: seq<State>, i: nat, id: nat)
    requires Run(states) && i < |states| && id < |states[i].created|
    ensures Alternate(Successes(states[i].created[id].trace))
  {
    OneStationFits(states, i, id);
  }

  /** After a permanent failure it sends nothing more: one event, and the main thread's UnregisterStation, may
      follow. */
  lemma NothingSentAfterARefusal(states: seq<State>, i: nat, id: nat, j: nat, k: nat)
    requires Run(states) && i < |states| && id < |states[i].created|
    requires var trace := states[i].created[id].trace; j < k < |trace| && trace[j].Refused?
    ensures var trace := states[i].created[id].trace; (k == j + 1 && trace[k].Pushed?) || trace[k] == Unregistered
    ensures states[i].created[id].pc == Ended
  {
    OneStationFits(states, i, id);
  }

  /** A station is unregistered at most once, after its stream thread has ended; the thread does nothing after it. */
  lemma NothingAfterUnregister(states: seq<State>, i: nat, id: nat, j: nat)
    requires Run(states) && i < |states| && id < |states[i].created|
    requires j < |states[i].created[id].trace| && states[i].created[id].trace[j] == Unregistered
    ensures j == |states[i].created[id].trace| - 1 && states[i].created[id].pc == Ended
    ensures id !in states[i].stations
  {
    OneStationFits(states, i, id);
    assert states[i].created[id].trace[j] in states[i].created[id].trace;
  }

  /** At most one UnregisterStation is ever enqueued for an id. */
  lemma UnregisteredAtMostOnce(states: seq<State>, i: nat, id: nat)
    requires Run(states) && i < |states|
    ensures Count(states[i].enqueued, Unregisters(id)) <= 1
  {
    hide Count, PoolShape, RegistryFits, SettingsFit, Conserved, StreamAgrees, Unregisters, HandsUnregister;
    var s := states[i];
    AllAlongRun(states, i);
    assert UnregistersAgree(s, id);
    if id < |s.created| {
      UnregisteredOnce(states, i, id);
    }
  }

  lemma UnregisteredOnce(states: seq<State>, i: nat, id: nat)
    requires Run(states) && i < |states| && id < |states[i].created|
    ensures Count(states[i].created[id].trace, IsUnregistered) <= 1
  {
    var trace := states[i].created[id].trace;
    OneStationFits(states, i, id);
    if trace != [] {
      var front := trace[..|trace| - 1];
      CountNone(front, IsUnregistered);
      assert forall j | 0 <= j < |front| :: trace[j] != Unregistered;
    }
  }

  /** The waits of a registration that keeps failing: a second, doubled each time up to half a minute. */
  lemma WaitsDouble(states: seq<State>, i: nat, id: nat, j: nat)
    requires Run(states) && i < |states| && id < |states[i].created|
    requires j < |states[i].created[id].trace| && states[i].created[id].trace[j].RegisterFailed?
    ensures var trace := states[i].created[id].trace; var k := Retries(trace[..j]);
            trace[j].wait == if 1000 * Pow2(k) < 30000 then 1000 * Pow2(k) else 30000
  {
    OneStationFits(states, i, id);
    BackoffIs(Retries(states[i].created[id].trace[..j]));
  }

  /** So do those of a subscription that is refused, counted on from two seconds after a reconnect, which is itself
      followed by one. */
  lemma PausesDouble(states: seq<State>, i: nat, id: nat, j: nat)
    requires Run(states) && i < |states| && id < |states[i].created| && j < |states[i].created[id].trace|
    ensures var trace := states[i].created[id].trace; var k := Reopenings(trace[..j]);
            && (trace[j].SubscribeFailed? ==>
                  trace[j].wait == if 1000 * Pow2(k) < 30000 then 1000 * Pow2(k) else 30000)
            && (trace[j].Settled? ==> trace[j].wait == 1000)
  {
    OneStationFits(states, i, id);
    BackoffIs(Reopenings(states[i].created[id].trace[..j]));
  }

  /** Events are heard only while subscribed; calls are made only while not; and once a stream is lost the station is
      registered anew before anything else, unless its thread has ended. */
  lemma RegistersAfterEachLoss(states: seq<State>, i: nat, id: nat, j: nat)
    requires Run(states) && i < |states| && id < |states[i].created| && j < |states[i].created[id].trace|
    ensures var trace := states[i].created[id].trace;
            && (trace[j].Received? ==> Connected(trace[..j]))
            && (trace[j].SentRegister? || trace[j].SentSubscribe? ==> !Connected(trace[..j]))
            && (j > 0 && trace[j - 1].Disconnected? ==> trace[j] == SentRegister(true) || trace[j] == Unregistered)
  {
    hide Connected;
    OneStationFits(states, i, id);
    var trace := states[i].created[id].trace;
    assert LinkAllows(trace[..j], trace[j]);
  }

  /** The status is asked for exactly once after each registration and each track change heard, before the thread
      waits, calls or reads again. */
  lemma StatusIsAskedFor(states: seq<State>, i: nat, id: nat, j: nat)
    requires Run(states) && i < |states| && id < |states[i].created| && j <= |states[i].created[id].trace|
    ensures var trace := states[i].created[id].trace;
            && 0 <= Owed(trace[..j]) <= 1
            && (j < |trace| && Owed(trace[..j]) == 1 ==> trace[j].Pushed? || trace[j].Asked?)
            && (j < |trace| && trace[j].Asked? ==> Owed(trace[..j]) == 1)
  {
    hide Owed;
    OneStationFits(states, i, id);
    var trace := states[i].created[id].trace;
    assert trace[..|trace|] == trace;
  }

  /** The main thread is given every event pushed, in the order of the pushes, and nothing else. */
  lemma EventsAreConserved(states: seq<State>, i: nat)
    requires Run(states) && i < |states|
    ensures states[i].delivered + states[i].dispatch == EventsOf(states[i].pushed)
  {
    hide PoolShape, RegistryFits, SettingsFit, StreamAgrees, UnregistersAgree;
    AllAlongRun(states, i);
  }

  /** Among them, a station's stream thread pushes exactly what it registered, was refused and read calls for, in
      that order; what it has yet to push is the end of it. */
  lemma StreamEventsInOrder(states: seq<State>, i: nat, id: nat)
    requires Run(states) && i < |states| && id < |states[i].created|
    ensures OfStream(id, states[i].pushed) + Pending(states[i].created[id].pc) == Due(id, states[i].created[id].trace)
  {
    hide PoolShape, RegistryFits, SettingsFit, Conserved, UnregistersAgree, Due, Pushes;
    AllAlongRun(states, i);
    OneStationFits(states, i, id);
    assert StreamAgrees(states[i], id);
  }

  /** The script can tell a station's first registration from its reconnects. */
  lemma RegistrationsAreToldApart(states: seq<State>, i: nat, id: nat)
    requires Run(states) && i < |states| && id < |states[i].created|
    ensures ToldApart(OfStream(id, states[i].pushed))
  {
    hide Due, Pending, OfStream, Successes, Alternate, ToldApart;
    var st := states[i].created[id];
    RegistersBeforeEachSubscribe(states, i, id);
    StreamEventsInOrder(states, i, id);
    DueIsToldApart(id, st.trace);
    FrontToldApart(OfStream(id, states[i].pushed), Pending(st.pc));
  }

  /** Hence what the main thread has been given from one stream is a prefix of it. */
  lemma DeliveredInWireOrder(states: seq<State>, i: nat, id: nat)
    requires Run(states) && i < |states| && id < |states[i].created|
    ensures var n := |states[i].delivered|;
            && n <= |states[i].pushed|
            && states[i].delivered == EventsOf(states[i].pushed[..n])
            && OfStream(id, states[i].pushed[..n]) <= Due(id, states[i].created[id].trace)
  {
    hide Due, Pending, OfStream;
    var s := states[i];
    var n := |s.delivered|;
    EventsAreConserved(states, i);
    StreamEventsInOrder(states, i, id);
    assert |s.delivered + s.dispatch| == |EventsOf(s.pushed)|;
    assert s.delivered == (s.delivered + s.dispatch)[..n];
    OfStreamAppend(id, s.pushed[..n], s.pushed[n..]);
    assert s.pushed == s.pushed[..n] + s.pushed[n..];
  }

  /** While any station exists the manager runs, its pool has max(1, workers) connections and all of them, and
      those of every station, are made from the settings; which are, but for the poll interval, the ones each
      station was created under. */
  lemma ConnectedAsConfigured(states: seq<State>, i: nat, id: nat)
    requires Run(states) && i < |states| && id in states[i].stations
    ensures var s := states[i];
            && s.running && ParseUrl(s.config.url) == Accepted(s.url) && s.config.token != []
            && |s.workers| == (if s.config.workers < 1 then 1 else s.config.workers)
            && (forall w | w in s.workers :: w.client == Client(s.url, s.config.token, s.config.timeout))
            && id < |s.created|
            && (forall c | c in s.created[id].clients :: c == Client(s.url, s.config.token, s.config.timeout))
            && s.created[id].made.(pollInterval := s.config.pollInterval) == s.config
  {
    hide LifeOf, Conserved, StreamAgrees, UnregistersAgree;
    AllAlongRun(states, i);
    assert Held(states[i], id);
  }

  /** No two stations in the registry share a slug. */
  lemma SlugsAreDistinct(states: seq<State>, i: nat, a: nat, b: nat)
    requires Run(states) && i < |states| && a in states[i].stations && b in states[i].stations && a != b
    ensures states[i].stations[a] != states[i].stations[b]
  {
    hide LifeOf, PoolShape, SettingsFit, Conserved, StreamAgrees, UnregistersAgree;
    AllAlongRun(states, i);
  }

  lemma StepKeepsIds(s: State, step: Step)
    requires PoolShape(s) && RegistryFits(s) && Enabled(s, step)
    ensures var t := Do(s, step);
            && |s.created| <= |t.created|
            && (forall id | 0 <= id < |s.created| :: t.created[id].slug == s.created[id].slug)
            && (forall id | 0 <= id < |s.created| && id in t.stations :: id in s.stations)
  {
    hide Work, Call, Mainly, StreamStep, StreamMay, WorkerMay, CallerMay, MainMay, LifeOf;
    match step
    case WorkerDoes(w, act) => WorkerLeavesRegistry(s, w, act);
    case CallerDoes(c, act) => CallerLeavesRegistry(s, c, act);
    case MainDoes(act) => MainKeepsIds(s, act);
    case PollerDoes(act) =>
    case StreamDoes(id, act) => StreamKeepsIds(s, id, act);
  }

  lemma StreamKeepsIds(s: State, id: nat, act: StreamAct)
    requires StreamMay(s, id, act)
    ensures var t := StreamStep(s, id, act);
            && t.stations == s.stations && |t.created| == |s.created|
            && forall k | 0 <= k < |s.created| :: t.created[k].slug == s.created[k].slug
  {
    hide Moving, StreamStep;
    var st := s.created[id];
    StreamMoves(s, id, act);
    MoveKeepsIdentity(id, st, st.stopping || !s.running, id in s.stations, ClientOf(s.config, s.url), act);
  }

  lemma MainKeepsIds(s: State, act: MainAct)
    requires |s.callers| >= STREAMS && MainMay(s, act)
    ensures var t := Mainly(s, act);
            && |s.created| <= |t.created|
            && (forall id | 0 <= id < |s.created| :: t.created[id].slug == s.created[id].slug)
            && (forall id | 0 <= id < |s.created| && id in t.stations :: id in s.stations)
  {
    hide Usable, ConnectionDiffers, LiveIds, ContinueMain;
    if act == Continue {
      ContinuingChanges(s);
    }
  }

  /** An id stands for one station for ever: once it has left the registry it does not come back. */
  lemma {:induction false} StationIdsAreNeverReused(states: seq<State>, i: nat, j: nat, id: nat)
    requires Run(states) && i <= j < |states| && id < |states[i].created|
    ensures id < |states[j].created| && states[j].created[id].slug == states[i].created[id].slug
    ensures id in states[j].stations ==> id in states[i].stations
    decreases j
  {
    hide Enabled, Do, PoolShape, RegistryFits, SettingsFit, Conserved;
    if i < j {
      StationIdsAreNeverReused(states, i, j - 1, id);
      AllAlongRun(states, j - 1);
      var step := StepTaken(states, j - 1);
      StepKeepsIds(states[j - 1], step);
    }
  }

  // ----- one run -----

  lemma Extend(states: seq<State>, step: Step) returns (more: seq<State>)
    requires Run(states) && Enabled(states[|states| - 1], step)
    ensures Run(more) && |more| == |states| + 1 && more[|more| - 1] == Do(states[|states| - 1], step)
    ensures states < more
  {
    hide Enabled, Do;
    more := states + [Do(states[|states| - 1], step)];
    assert Next(more[|more| - 2], more[|more| - 1]);
    forall i | 0 <= i < |more| - 1 ensures Next(more[i], more[i + 1]) {
      assert i < |states| - 1 ==> Next(states[i], states[i + 1]);
    }
  }

  /** Usable settings with one worker do start the manager: the pool is up and the version check is queued. */
  lemma TheManagerStarts(config: Config) returns (states: seq<State>)
    requires Usable(config, true) && config.workers == 1
    ensures Run(states)
    ensures var s := states[|states| - 1];
            && s.running && s.configured && s.poller && s.main == Outside && s.config == config
            && |s.workers| == 1 && s.workers[0].pc == Wanting && s.jobs == [SERVER_INFO_JOB]
            && |s.callers| == STREAMS && Idle(s) && s.created == [] && s.stations == map[]
  {
    hide Run, Usable, Work, WorkerMay, StreamMay, StreamStep, End, Stop, Asking, ShuttingDown, Destroying, Creating,
         Reloading;
    states := TheManagerBoots(config);
    states := Extend(states, MainDoes(Continue));
    states := Extend(states, MainDoes(Continue));
    states := HandsOver(states, MAIN);
  }

  lemma TheManagerBoots(config: Config) returns (states: seq<State>)
    requires Usable(config, true) && config.workers == 1
    ensures Run(states)
    ensures var s := states[|states| - 1];
            && s.running && s.configured && s.main == Spawning(1) && s.config == config
            && s.workers == [] && s.jobs == [] && s.callers == [Resting, Resting]
            && s.created == [] && s.stations == map[]
  {
    hide Run, Usable, Work, WorkerMay, StreamMay, StreamStep, End, Stop, Asking, ShuttingDown, Destroying, Creating,
         Reloading, Call, CallerMay, PollOnce, PollerMay, ParseUrl, Ascii;
    states := [INITIAL];
    assert Run(states) by { StartAlone(INITIAL); }
    states := Extend(states, MainDoes(Configure(config, true)));
    states := Extend(states, MainDoes(Continue));
  }

  /** A thread with a job in hand hands it over, while no worker is parked or holds the mutex. */
  lemma HandsOver(before: seq<State>, c: nat) returns (states: seq<State>)
    requires Run(before)
    requires var s := before[|before| - 1];
             c < |s.callers| && s.callers[c].InHand? && forall w | w in s.workers :: w.pc == Wanting
    ensures Run(states)
    ensures var s := before[|before| - 1]; var job := s.callers[c].job;
            states[|states| - 1] ==
            s.(jobs := s.jobs + [job], enqueued := s.enqueued + [job], callers := s.callers[c := Resting])
  {
    var s := before[|before| - 1];
    hide Run, Work, WorkerMay, Mainly, MainMay, StreamMay, StreamStep;
    states := Extend(before, CallerDoes(c, PushJob));
    states := Extend(states, CallerDoes(c, NotifyNobody));
    assert states[|states| - 1].callers == s.callers[c := Resting];
  }

  lemma StartAlone(s: State)
    requires Init(s)
    ensures Run([s])
  {
  }

  /** And a station created on it can register, subscribe and hear an event, which the main thread is then given. */
  lemma AStationIsHeard(before: seq<State>, slug: bytes, resp: Value, event: Value) returns (states: seq<State>)
    requires Run(before) && slug != []
    requires var s := before[|before| - 1];
             && s.running && s.configured && |s.callers| == STREAMS && Idle(s) && s.created == [] && s.stations == map[]
             && forall w | w in s.workers :: w.pc == Wanting
    ensures Run(states)
    ensures var s := states[|states| - 1];
            && s.stations == map[0 := slug] && |s.created| == 1
            && s.created[0].pc == Handling(CallbackFor(0, event), ChangesTrack(event))
            && s.created[0].trace ==
               [SentRegister(false), Registered(false, resp), Pushed(RegisteredEvent(0, resp, false)),
                Asked(true), SentSubscribe, Subscribed, Received(event)]
            && s.delivered == before[|before| - 1].delivered + before[|before| - 1].dispatch
               + [RegisteredEvent(0, resp, false)]
  {
    hide Run, CallbackFor, RegisteredEvent, ChangesTrack, WorkerMay, Work, Permanent;
    states := Extend(before, MainDoes(Create(slug)));
    states := Extend(states, StreamDoes(0, Go));
    states := Extend(states, StreamDoes(0, Go));
    states := Extend(states, StreamDoes(0, Answered(Success(resp))));
    states := Extend(states, StreamDoes(0, Go));
    states := Extend(states, MainDoes(Tick));
    states := Subscribes(states, event);
  }

  lemma Subscribes(before: seq<State>, event: Value) returns (states: seq<State>)
    requires Run(before) && JustRegistered(before[|before| - 1], Refreshing(LoopTop(MIN_BACKOFF)))
    ensures Run(states)
    ensures var s, was := states[|states| - 1], before[|before| - 1];
            && s.stations == was.stations && |s.created| == 1 && s.delivered == was.delivered
            && s.created[0].pc == Handling(CallbackFor(0, event), ChangesTrack(event))
            && s.created[0].trace == was.created[0].trace + [Asked(true), SentSubscribe, Subscribed, Received(event)]
  {
    hide Run, CallbackFor, ChangesTrack, WorkerMay, Work, Mainly, MainMay, RegisteredEvent, Permanent;
    states := AsksForStatus(before);
    states := Extend(states, StreamDoes(0, Go));
    states := Extend(states, StreamDoes(0, Opened));
    states := Extend(states, StreamDoes(0, Heard(event)));
  }

  predicate JustRegistered(s: State, pc: StreamPc) {
    && s.running && |s.created| == 1 && s.created[0].pc == pc && !s.created[0].stopping
    && |s.callers| == STREAMS + 1 && s.callers[STREAMS] == Resting && 0 in s.stations
    && forall w | w in s.workers :: w.pc == Wanting
  }

  lemma AsksForStatus(before: seq<State>) returns (states: seq<State>)
    requires Run(before) && JustRegistered(before[|before| - 1], Refreshing(LoopTop(MIN_BACKOFF)))
    ensures Run(states) && JustRegistered(states[|states| - 1], LoopTop(MIN_BACKOFF))
    ensures var s, was := states[|states| - 1], before[|before| - 1];
            && s.stations == was.stations && s.delivered == was.delivered
            && s.created[0].trace == was.created[0].trace + [Asked(true)]
  {
    hide Run, WorkerMay, Work, Mainly, MainMay;
    states := Extend(before, StreamDoes(0, Go));
    states := Extend(states, CallerDoes(STREAMS, IssueStatus));
    states := HandsOver(states, STREAMS);
    states := Extend(states, StreamDoes(0, Go));
  }
}
