/**
 The worker pool over every run: who holds the jobs mutex, how the pool stops, and that no wake-up is lost.
 */
module ManagerPool {
  import opened StatusCache
  import opened Managers
  import opened Counting

  // ----- what always holds of the pool -----

  /** What a worker's position says about the rest. */
  predicate WorkerFits(s: State, pc: WorkerPc) {
    && (pc == Leaving ==> !s.running && s.jobs == [])
    && (pc == Parking ==> s.jobs == [] && !s.main.Waking? && !s.main.Joining?)
    && (pc == Parked ==> !s.main.Joining?)
    && (pc == Exited ==> !s.running)
  }

  predicate AllFit(s: State) {
    forall i | 0 <= i < |s.workers| :: WorkerFits(s, s.workers[i].pc)
  }

  predicate OneHolder(workers: seq<Worker>) {
    forall i, j | 0 <= i < j < |workers| :: !(Holds(workers[i].pc) && Holds(workers[j].pc))
  }

  predicate PoolStops(main: MainPc) {
    main.Clearing? || main.Waking? || main.Joining?
  }

  predicate LifeFits(s: State) {
    && |s.callers| == STREAMS + |s.created|
    && (PoolStops(s.main) || s.main.Booting? ==> !s.running)
    && (s.main.Stopping? || s.main.Spawning? || s.main.Halting? || s.main.HaltJoining? ==> s.running)
    && (!s.running && !PoolStops(s.main) ==> s.workers == [] && !s.poller)
  }

  predicate PoolShape(s: State) {
    && LifeFits(s)
    && OneHolder(s.workers)
    && AllFit(s)
  }

  lemma StreamLeavesPool(s: State, id: nat, act: StreamAct)
    requires StreamMay(s, id, act)
    ensures id < |s.created| && |s.callers| == STREAMS + |s.created|
    ensures var t := StreamStep(s, id, act);
            && t.running == s.running && t.configured == s.configured && t.config == s.config && t.url == s.url
            && t.stations == s.stations && |t.created| == |s.created| && t.nextRequest == s.nextRequest
            && t.jobs == s.jobs && t.workers == s.workers && t.poller == s.poller && t.main == s.main
            && t.issued == s.issued && t.delivered == s.delivered && t.dropped == s.dropped && t.returned == s.returned
            && (t.callers == s.callers
                || (s.callers[STREAMS + id] == Resting && t.callers == s.callers[STREAMS + id := Found(id)]))
  {
    AskingTakesRest(s, id, act);
  }

  /** What a stream thread's step makes of the stations and of what is pushed. */
  lemma StreamMoves(s: State, id: nat, act: StreamAct)
    requires StreamMay(s, id, act)
    ensures id < |s.created|
    ensures var t, move := StreamStep(s, id, act), MoveOf(s, id, act);
            && t.created == s.created[id := move.st] && t.stations == s.stations && t.main == s.main
            && t.dispatch == s.dispatch + move.out && t.pushed == s.pushed + Signed(ByStream(id), move.out)
            && t.delivered == s.delivered && t.enqueued == s.enqueued && (!move.asks ==> t.callers == s.callers)
  {
    hide Moving, Signed;
  }

  lemma AskingTakesRest(s: State, id: nat, act: StreamAct)
    requires StreamMay(s, id, act)
    ensures MoveOf(s, id, act).asks ==> s.callers[STREAMS + id] == Resting
  {
  }

  lemma WorkerKeepsShape(s: State, w: nat, act: WorkerAct)
    requires PoolShape(s) && WorkerMay(s, w, act)
    ensures PoolShape(Work(s, w, act))
  {
    hide Answers, RegisteredEvent, ErrorEvent, Signed, OneHolder, StationStops;
    WorkerKeepsOneHolder(s, w, act);
    assert WorkerFits(s, s.workers[w].pc);
  }

  lemma WorkerKeepsOneHolder(s: State, w: nat, act: WorkerAct)
    requires OneHolder(s.workers) && WorkerMay(s, w, act)
    ensures OneHolder(Work(s, w, act).workers)
    ensures act.Take? || act.SeeStop? || act.WillWait? ==>
              forall i | 0 <= i < |s.workers| && i != w :: !Holds(s.workers[i].pc)
  {
    hide Answers, RegisteredEvent, ErrorEvent, Signed, StationStops;
  }

  lemma CallerKeepsShape(s: State, c: nat, act: CallerAct)
    requires PoolShape(s) && CallerMay(s, c, act)
    ensures PoolShape(Call(s, c, act))
  {
  }

  lemma MainKeepsShape(s: State, act: MainAct)
    requires PoolShape(s) && MainMay(s, act)
    ensures PoolShape(Mainly(s, act))
  {
    hide ContinueMain, Usable, LiveIds, OneHolder, PoolSize, ConnectionDiffers;
    if act == Continue {
      ContinuingKeepsShape(s);
    } else {
      OthersLeaveWorkers(s, act);
    }
  }

  lemma OthersLeaveWorkers(s: State, act: MainAct)
    requires |s.callers| >= STREAMS && MainMay(s, act) && act != Continue
    ensures var t := Mainly(s, act);
            && t.workers == s.workers && t.jobs == s.jobs && t.running == s.running && t.poller == s.poller
            && t.dropped == s.dropped && !PoolStops(t.main) && !PoolStops(s.main)
  {
    hide Usable, LiveIds, ConnectionDiffers, Asking, CanContinue;
    AskingLeavesWorkers(s, act);
  }

  lemma AskingLeavesWorkers(s: State, act: MainAct)
    requires |s.callers| >= STREAMS
    ensures var t := Asking(s, act);
            && t.workers == s.workers && t.jobs == s.jobs && t.running == s.running && t.poller == s.poller
            && t.dropped == s.dropped && t.main == s.main
  {
  }

  lemma ContinuingKeepsShape(s: State)
    requires PoolShape(s) && CanContinue(s)
    ensures PoolShape(ContinueMain(s))
  {
    hide OneHolder, LifeFits, WorkerFits, Stop, Start, End;
    ContinuingKeepsLife(s);
    ContinuingKeepsOneHolder(s);
    if InStop(s.main) {
      StopKeepsFits(s);
    } else if InStart(s.main) {
      StartKeepsFits(s);
    } else if s.main != Outside {
      EndKeepsFits(s);
    }
  }

  lemma StopKeepsFits(s: State)
    requires AllFit(s) && LifeFits(s) && CanContinue(s) && InStop(s.main)
    ensures AllFit(Stop(s))
  {
  }

  lemma StartKeepsFits(s: State)
    requires AllFit(s) && LifeFits(s) && InStart(s.main)
    ensures AllFit(Start(s))
  {
    hide PoolSize;
  }

  lemma EndKeepsFits(s: State)
    requires AllFit(s) && |s.callers| >= STREAMS && CanContinue(s) && InEnd(s.main)
    ensures AllFit(End(s))
  {
  }

  lemma ContinuingKeepsLife(s: State)
    requires LifeFits(s) && CanContinue(s)
    ensures |s.callers| >= STREAMS && LifeFits(ContinueMain(s))
    ensures s.running && !ContinueMain(s).running ==> ContinueMain(s).main.Clearing?
    ensures !s.running && ContinueMain(s).running ==> s.workers == []
  {
    hide WakeAll, PoolSize;
  }

  lemma ContinuingKeepsOneHolder(s: State)
    requires |s.callers| >= STREAMS && OneHolder(s.workers) && CanContinue(s)
    ensures OneHolder(ContinueMain(s).workers)
  {
    if s.main.Waking? {
      assert forall i | 0 <= i < |s.workers| :: Holds(WakeAll(s.workers)[i].pc) <==> Holds(s.workers[i].pc);
    } else {
      hide WakeAll;
    }
  }

  lemma StepKeepsShape(s: State, step: Step)
    requires PoolShape(s) && Enabled(s, step)
    ensures PoolShape(Do(s, step))
  {
    hide Work, Call, Mainly, StreamStep, StreamMay, WorkerMay, CallerMay, MainMay;
    match step
    case WorkerDoes(w, act) => WorkerKeepsShape(s, w, act);
    case CallerDoes(c, act) => CallerKeepsShape(s, c, act);
    case MainDoes(act) => MainKeepsShape(s, act);
    case PollerDoes(act) =>
    case StreamDoes(id, act) => StreamLeavesPool(s, id, act);
  }

  // ----- no wake-up is lost -----

  predicate Heading(w: Worker) {
    w.pc == Wanting || w.pc == Locked
  }

  predicate Notifies(c: Caller) {
    c == Notifying
  }

  predicate IsParked(w: Worker) {
    w.pc == Parked
  }

  predicate Covered(s: State) {
    Count(s.workers, IsParked) > 0 ==> |s.jobs| <= Count(s.callers, Notifies) + Count(s.workers, Heading)
  }

  lemma WorkerKeepsCovered(s: State, w: nat, act: WorkerAct)
    requires PoolShape(s) && Covered(s) && WorkerMay(s, w, act)
    ensures Covered(Work(s, w, act))
  {
    hide Answers, RegisteredEvent, ErrorEvent, Count;
    var t := Work(s, w, act);
    CountUpdate(s.workers, w, t.workers[w], IsParked);
    CountUpdate(s.workers, w, t.workers[w], Heading);
    assert WorkerFits(s, s.workers[w].pc);
  }

  lemma CallerKeepsCovered(s: State, c: nat, act: CallerAct)
    requires PoolShape(s) && Covered(s) && CallerMay(s, c, act)
    ensures Covered(Call(s, c, act))
  {
    hide Count;
    var t := Call(s, c, act);
    CountUpdate(s.callers, c, t.callers[c], Notifies);
    match act
    case Notify(w) =>
      CountUpdate(s.workers, w, t.workers[w], IsParked);
      CountUpdate(s.workers, w, t.workers[w], Heading);
    case NotifyNobody => CountNone(s.workers, IsParked);
    case _ =>
  }

  lemma MainKeepsCovered(s: State, act: MainAct)
    requires PoolShape(s) && Covered(s) && MainMay(s, act)
    ensures Covered(Mainly(s, act))
  {
    hide ContinueMain, Usable, LiveIds, Count;
    var t := Mainly(s, act);
    if act == Continue {
      ContinuingKeepsCovered(s);
    } else {
      OthersLeaveWorkers(s, act);
      CountSnoc(s.callers, Resting, Notifies);
      CountUpdate(s.callers, MAIN, t.callers[MAIN], Notifies);
    }
  }

  lemma ContinuingKeepsCovered(s: State)
    requires PoolShape(s) && Covered(s) && CanContinue(s) && s.callers[MAIN] == Resting
    ensures Covered(ContinueMain(s))
  {
    hide Covered, PoolShape, Stop, Start, End;
    if InStop(s.main) {
      StopKeepsCovered(s);
    } else if InStart(s.main) {
      StartKeepsCovered(s);
    } else if s.main != Outside {
      EndKeepsCovered(s);
    }
  }

  lemma StopKeepsCovered(s: State)
    requires Covered(s) && InStop(s.main)
    ensures Covered(Stop(s))
  {
    hide Count;
    var t := Stop(s);
    if s.main.Waking? || s.main.Joining? {
      forall w | w in t.workers ensures !IsParked(w) {}
      CountNone(t.workers, IsParked);
    }
  }

  lemma StartKeepsCovered(s: State)
    requires PoolShape(s) && Covered(s) && s.callers[MAIN] == Resting && InStart(s.main)
    ensures Covered(Start(s))
  {
    hide Count, PoolSize;
    CountUpdate(s.callers, MAIN, Start(s).callers[MAIN], Notifies);
    if s.main.Spawning? {
      var worker := Worker(ClientOf(s.config, s.url), Wanting);
      CountSnoc(s.workers, worker, IsParked);
      CountSnoc(s.workers, worker, Heading);
    }
  }

  lemma EndKeepsCovered(s: State)
    requires PoolShape(s) && Covered(s) && CanContinue(s) && s.callers[MAIN] == Resting && InEnd(s.main)
    ensures Covered(End(s))
  {
    hide Count;
    CountUpdate(s.callers, MAIN, End(s).callers[MAIN], Notifies);
  }

  lemma StepKeepsCovered(s: State, step: Step)
    requires PoolShape(s) && Covered(s) && Enabled(s, step)
    ensures Covered(Do(s, step))
  {
    hide Work, Call, Mainly, StreamStep, StreamMay, WorkerMay, CallerMay, MainMay, Count;
    match step
    case WorkerDoes(w, act) => WorkerKeepsCovered(s, w, act);
    case CallerDoes(c, act) => CallerKeepsCovered(s, c, act);
    case MainDoes(act) => MainKeepsCovered(s, act);
    case PollerDoes(act) =>
      CountUpdate(s.callers, POLLER, Do(s, step).callers[POLLER], Notifies);
    case StreamDoes(id, act) =>
      StreamLeavesPool(s, id, act);
      CountUpdate(s.callers, STREAMS + id, Do(s, step).callers[STREAMS + id], Notifies);
  }

  // ----- over every run -----

  lemma {:induction false} PoolAlongRun(states: seq<State>, i: nat)
    requires Run(states) && i < |states|
    ensures PoolShape(states[i]) && Covered(states[i])
  {
    hide Enabled, Do, Covered, PoolShape;
    if i == 0 {
      StartsInShape(states[0]);
    } else {
      PoolAlongRun(states, i - 1);
      var step := StepTaken(states, i - 1);
      StepKeepsShape(states[i - 1], step);
      StepKeepsCovered(states[i - 1], step);
    }
  }

  lemma StartsInShape(s: State)
    requires Init(s)
    ensures PoolShape(s) && Covered(s)
  {
  }

  lemma StepTaken(states: seq<State>, i: nat) returns (step: Step)
    requires Run(states) && i + 1 < |states|
    ensures Enabled(states[i], step) && states[i + 1] == Do(states[i], step)
  {
    assert Next(states[i], states[i + 1]);
    step :| Enabled(states[i], step) && states[i + 1] == Do(states[i], step);
  }

  /** Once StopWorkers has notified the workers none is parked and none is about to be, until all are joined. */
  lemma NoneSleepsThroughAStop(states: seq<State>, i: nat, w: nat)
    requires Run(states) && i < |states| && states[i].main.Joining? && w < |states[i].workers|
    ensures states[i].workers[w].pc != Parked && states[i].workers[w].pc != Parking
  {
    PoolAlongRun(states, i);
    assert WorkerFits(states[i], states[i].workers[w].pc);
  }

  /** While any worker is parked, every job in the queue has a notification still to come or a worker on its way. */
  lemma NoJobIsSleptOn(states: seq<State>, i: nat)
    requires Run(states) && i < |states|
    ensures Count(states[i].workers, IsParked) > 0
            ==> |states[i].jobs| <= Count(states[i].callers, Notifies) + Count(states[i].workers, Heading)
  {
    PoolAlongRun(states, i);
  }

  /** Hence, when all workers are parked and no Enqueue stands between its push and its notification, the queue is
      empty. */
  lemma AllParkedMeansNothingQueued(states: seq<State>, i: nat)
    requires Run(states) && i < |states| && states[i].workers != []
    requires forall w | w in states[i].workers :: w.pc == Parked
    requires forall c | c in states[i].callers :: c != Notifying
    ensures states[i].jobs == []
  {
    var s := states[i];
    NoJobIsSleptOn(states, i);
    CountNone(s.workers, Heading);
    CountNone(s.callers, Notifies);
    assert s.workers[0] in s.workers;
    CountNone(s.workers, IsParked);
  }

  /** A worker whose predicate came true because the manager stops does leave: the other branch is never taken. */
  lemma LeavingWorkersLeave(states: seq<State>, i: nat, w: nat)
    requires Run(states) && i < |states| && w < |states[i].workers| && states[i].workers[w].pc == Leaving
    ensures WorkerMay(states[i], w, Leave) && Work(states[i], w, Leave).workers[w].pc == Exited
  {
    PoolAlongRun(states, i);
    assert WorkerFits(states[i], states[i].workers[w].pc);
  }
}
