/**
 The main thread's operations, and the other threads' steps, on what there is to see of the manager. From any reachable
 state a run goes on by an operation of the main thread and by the steps of other threads it waits for, to a state that
 shows what the operation is to leave; and a step of another thread changes what is seen in one of four ways.
 */
module ManagerOperations {
  import opened Bytes
  import opened StatusCache
  import opened Urls
  import opened Json
  import opened Managers
  import opened ManagerPool
  import opened ManagerRequests
  import opened ManagerStreams
  import opened ManagerRegistry
  import opened ManagerRuns

  /** What there is to see of a manager, its stations by id. */
  datatype View = View(
    running: bool, configured: bool, config: Config, url: Url,
    slugs: map<int, bytes>, stops: map<int, bool>, clients: map<int, Client>, nextStation: nat, nextRequest: nat,
    jobs: seq<Job>, dispatch: seq<PawnEvent>, pool: seq<Client>)

  predicate Shown(v: View, s: State) {
    && v.running == s.running && v.configured == s.configured && v.config == s.config && v.url == s.url
    && v.slugs == s.stations && v.nextStation == |s.created| && v.nextRequest == s.nextRequest
    && v.jobs == s.jobs && v.dispatch == s.dispatch
    && |v.pool| == |s.workers| && (forall i | 0 <= i < |s.workers| :: v.pool[i] == s.workers[i].client)
    && v.stops.Keys == v.slugs.Keys && v.clients.Keys == v.slugs.Keys
    && forall id | id in v.slugs :: 0 <= id < |s.created| && StationShown(v, id, s.created[id])
  }

  predicate StationShown(v: View, id: int, st: Station)
    requires id in v.slugs && id in v.stops && id in v.clients
  {
    v.slugs[id] == st.slug && v.stops[id] == st.stopping && st.clients != [] && v.clients[id] == st.clients[0]
  }

  function Last(states: seq<State>): State
    requires states != []
  {
    states[|states| - 1]
  }

  /** The last state of a run shows `v`; the main thread is at `main`, with `caller` to hand in. */
  ghost predicate Shows(run: seq<State>, v: View, main: MainPc, caller: Caller) {
    && run != [] && Run(run)
    && var s := Last(run);
       && s.main == main && |s.callers| == STREAMS + |s.created| && s.callers[MAIN] == caller
       && Shown(v, s)
  }

  /** `later` goes on from `run`, first of all by this step. */
  ghost predicate GoesOn(run: seq<State>, step: Step, later: seq<State>)
    requires run != []
  {
    && run < later && Enabled(Last(run), step)
    && later[|run|] == Do(Last(run), step)
  }

  // ----- handing in -----

  /** The same workers with the same connections, none of them in the jobs mutex. */
  predicate SamePool(workers: seq<Worker>, later: seq<Worker>) {
    && |later| == |workers|
    && forall i | 0 <= i < |workers| :: later[i].client == workers[i].client && !Holds(later[i].pc)
  }

  /** The job a thread has in hand is queued and a worker, if one is parked, notified. */
  lemma HandsIn(before: seq<State>, v: View, c: nat, job: Job, mine: Caller) returns (run: seq<State>)
    requires Shows(before, v, Outside, mine) && (c == MAIN || mine == Resting)
    requires c < |Last(before).callers| && Last(before).callers[c] == InHand(job) && JobsMutexFree(Last(before))
    ensures Shows(run, v.(jobs := v.jobs + [job]), Outside, Resting) && before < run
    ensures var s, t := Last(before), Last(run);
            && SamePool(s.workers, t.workers)
            && t == s.(jobs := t.jobs, enqueued := t.enqueued, callers := s.callers[c := Resting], workers := t.workers)
  {
    hide Run, Work, WorkerMay, Mainly, MainMay, StreamMay, StreamStep;
    run := Extend(before, CallerDoes(c, PushJob));
    run := Notifies(run, v.(jobs := v.jobs + [job]), c, if c == MAIN then Notifying else Resting);
  }

  lemma Notifies(before: seq<State>, v: View, c: nat, mine: Caller) returns (run: seq<State>)
    requires Shows(before, v, Outside, mine) && (c == MAIN || mine == Resting)
    requires c < |Last(before).callers| && Last(before).callers[c] == Notifying && JobsMutexFree(Last(before))
    ensures Shows(run, v, Outside, Resting) && before < run
    ensures var s, t := Last(before), Last(run);
            SamePool(s.workers, t.workers) && t == s.(callers := s.callers[c := Resting], workers := t.workers)
  {
    hide Run, Work, WorkerMay, Mainly, MainMay, StreamMay, StreamStep;
    var s := Last(before);
    if w: nat :| w < |s.workers| && s.workers[w].pc == Parked {
      run := NotifiesOne(before, v, c, mine, w);
    } else {
      run := Extend(before, CallerDoes(c, NotifyNobody));
    }
  }

  lemma NotifiesOne(before: seq<State>, v: View, c: nat, mine: Caller, w: nat) returns (run: seq<State>)
    requires Shows(before, v, Outside, mine) && (c == MAIN || mine == Resting)
    requires c < |Last(before).callers| && Last(before).callers[c] == Notifying && JobsMutexFree(Last(before))
    requires w < |Last(before).workers| && Last(before).workers[w].pc == Parked
    ensures Shows(run, v, Outside, Resting) && before < run
    ensures var s, t := Last(before), Last(run);
            SamePool(s.workers, t.workers) && t == s.(callers := s.callers[c := Resting], workers := t.workers)
  {
    hide Run, Work, WorkerMay, Mainly, MainMay, StreamMay, StreamStep, SamePool;
    run := Extend(before, CallerDoes(c, Notify(w)));
    Wakes(Last(before).workers, w);
  }

  lemma Wakes(workers: seq<Worker>, w: nat)
    requires w < |workers| && forall other | other in workers :: !Holds(other.pc)
    ensures SamePool(workers, workers[w := workers[w].(pc := Wanting)])
  {
  }

  function Asked(v: View, job: Job): View {
    v.(nextRequest := v.nextRequest + 1, jobs := v.jobs + [job])
  }

  lemma Commands(before: seq<State>, v: View, id: int, job: Job) returns (run: seq<State>)
    requires Shows(before, v, Outside, Resting) && (id in v.slugs ==> JobsMutexFree(Last(before)))
    requires job.kind == JobCommand || job.kind == JobQueueTrack
    requires job.station == id && (id in v.slugs ==> job.request == v.nextRequest + 1)
    ensures GoesOn(before, MainDoes(Command(id, job.kind, job.command, job.flagKey, job.resultKey)), run)
    ensures var later := if id in v.slugs then Asked(v, job) else v;
            Shows(run, later, Outside, Resting)
    ensures Last(run).issued == Last(before).issued + if id in v.slugs then [job] else []
  {
    hide Run, Work, WorkerMay, StreamMay, StreamStep, ContinueMain, CanContinue;
    var act := Command(id, job.kind, job.command, job.flagKey, job.resultKey);
    run := Extend(before, MainDoes(act));
    if id in v.slugs {
      run := HandsIn(run, v.(nextRequest := v.nextRequest + 1), MAIN, job, InHand(job));
    }
  }

  lemma RefreshesStatus(before: seq<State>, v: View, id: int) returns (run: seq<State>)
    requires Shows(before, v, Outside, Resting) && (id in v.slugs ==> JobsMutexFree(Last(before)))
    ensures GoesOn(before, MainDoes(MainAct.RefreshStatus(id)), run)
    ensures var job := StatusJob(id).(request := v.nextRequest + 1);
            && Shows(run, if id in v.slugs then Asked(v, job) else v,
                     Outside, Resting)
            && Last(run).issued == Last(before).issued + if id in v.slugs then [job] else []
  {
    hide Run, Work, WorkerMay, StreamMay, StreamStep, ContinueMain, CanContinue;
    run := Extend(before, MainDoes(MainAct.RefreshStatus(id)));
    if id in v.slugs {
      run := Extend(run, CallerDoes(MAIN, IssueStatus));
      var job := StatusJob(id).(request := v.nextRequest + 1);
      run := HandsIn(run, v.(nextRequest := v.nextRequest + 1), MAIN, job, InHand(job));
    }
  }

  lemma ListsStations(before: seq<State>, v: View) returns (run: seq<State>)
    requires Shows(before, v, Outside, Resting) && (v.configured ==> JobsMutexFree(Last(before)))
    ensures GoesOn(before, MainDoes(ListStations), run)
    ensures var job := Job(JobListStations, INVALID_STATION, v.nextRequest + 1, [], [], []);
            && Shows(run, if v.configured then Asked(v, job) else v,
                     Outside, Resting)
            && Last(run).issued == Last(before).issued + if v.configured then [job] else []
  {
    hide Run, Work, WorkerMay, StreamMay, StreamStep, ContinueMain, CanContinue;
    run := Extend(before, MainDoes(ListStations));
    if v.configured {
      var job := Job(JobListStations, INVALID_STATION, v.nextRequest + 1, [], [], []);
      run := HandsIn(run, v.(nextRequest := v.nextRequest + 1), MAIN, job, InHand(job));
    }
  }

  function Updated(v: View, id: int): View {
    if id in v.slugs then v.(jobs := v.jobs + [Job(JobRegister, id, 0, [], [], [])]) else v
  }

  lemma Updates(before: seq<State>, v: View, id: int) returns (run: seq<State>)
    requires Shows(before, v, Outside, Resting) && (id in v.slugs ==> JobsMutexFree(Last(before)))
    ensures GoesOn(before, MainDoes(MainAct.UpdateStation(id)), run)
    ensures Shows(run, Updated(v, id), Outside, Resting)
  {
    hide Run, Work, WorkerMay, StreamMay, StreamStep, ContinueMain, CanContinue;
    run := Extend(before, MainDoes(MainAct.UpdateStation(id)));
    if id in v.slugs {
      var job := Job(JobRegister, id, 0, [], [], []);
      run := HandsIn(run, v, MAIN, job, InHand(job));
    }
  }

  lemma StartsShown(v: View) returns (run: seq<State>)
    requires v == View(false, false, DEFAULT_CONFIG, NO_URL, map[], map[], map[], 0, 0, [], [], [])
    ensures Shows(run, v, Outside, Resting) && |run| == 1 && JobsMutexFree(Last(run))
  {
    run := [INITIAL];
    StartAlone(INITIAL);
  }

  lemma Ticks(before: seq<State>, v: View) returns (run: seq<State>)
    requires Shows(before, v, Outside, Resting)
    ensures Shows(run, v.(dispatch := []), Outside, Resting) && GoesOn(before, MainDoes(MainAct.Tick), run)
    ensures Last(run).delivered == Last(before).delivered + v.dispatch
  {
    hide Run, CanContinue, ContinueMain;
    run := Extend(before, MainDoes(MainAct.Tick));
  }

  function Created(v: View, slug: bytes): View {
    if slug == [] || !v.configured || slug in v.slugs.Values then v
    else
      var id := v.nextStation;
      v.(slugs := v.slugs[id := slug], stops := v.stops[id := false], nextStation := id + 1,
         clients := v.clients[id := ClientOf(v.config, v.url)])
  }

  lemma Creates(before: seq<State>, v: View, slug: bytes) returns (run: seq<State>)
    requires Shows(before, v, Outside, Resting)
    ensures GoesOn(before, MainDoes(Create(slug)), run)
    ensures Shows(run, Created(v, slug), Outside, Resting)
  {
    hide Run, CanContinue, ContinueMain;
    run := Extend(before, MainDoes(Create(slug)));
  }

  // ----- starting and stopping the pool -----

  /** A worker that can leave without pushing an event or taking a job. */
  predicate Silent(pc: WorkerPc) {
    || pc == Wanting || pc == Parked || pc.Reregistering?
    || (pc.Calling? && pc.job.kind == JobUnregister)
    || (pc.Answering? && pc.todo == [])
  }

  /** The pool can be stopped at once: every worker can leave so, and the poller has nothing in hand. */
  predicate PoolAtRest(s: State)
    requires |s.callers| >= STREAMS
  {
    (forall i | 0 <= i < |s.workers| :: Silent(s.workers[i].pc)) && s.callers[POLLER] == Resting
  }

  /** Woken for the stop. */
  predicate Leaver(pc: WorkerPc) {
    pc == Exited || (Silent(pc) && pc != Parked)
  }

  predicate Stopped(s: State, v: View, purpose: Purpose) {
    && !v.running && v.jobs == [] && s.main == Joining(purpose)
    && (forall i | 0 <= i < |s.workers| :: Leaver(s.workers[i].pc))
  }

  lemma WorkerYields(before: seq<State>, v: View, purpose: Purpose, w: nat) returns (run: seq<State>)
    requires Shows(before, v, Joining(purpose), Resting) && Stopped(Last(before), v, purpose) && w < |v.pool|
    requires Last(before).workers[w].pc != Exited
    ensures Shows(run, v, Joining(purpose), Resting) && before <= run
    ensures var s := Last(before);
            Last(run) == s.(workers := s.workers[w := s.workers[w].(pc := Wanting)], returned := Last(run).returned)
  {
    hide Run;
    run := before;
    if Last(run).workers[w].pc.Calling? {
      run := CallFails(run, v, purpose, w);
    }
    if Last(run).workers[w].pc != Wanting {
      run := WorkerGivesUp(run, v, purpose, w);
    }
    assert Last(before).workers[w := Last(run).workers[w]] == Last(run).workers;
  }

  lemma CallFails(before: seq<State>, v: View, purpose: Purpose, w: nat) returns (run: seq<State>)
    requires Shows(before, v, Joining(purpose), Resting) && w < |v.pool|
    requires var pc := Last(before).workers[w].pc; pc.Calling? && pc.job.kind == JobUnregister
    ensures Shows(run, v, Joining(purpose), Resting) && before < run
    ensures var s := Last(before); var job := s.workers[w].pc.job;
            Last(run) == s.(workers := s.workers[w := s.workers[w].(pc := Answering(job, []))],
                            returned := s.returned + [(job.request, Failure([], []))])
  {
    hide Run, Call, CallerMay, Mainly, MainMay, StreamMay, StreamStep;
    run := Extend(before, WorkerDoes(w, Return(Failure([], []))));
  }

  lemma WorkerGivesUp(before: seq<State>, v: View, purpose: Purpose, w: nat) returns (run: seq<State>)
    requires Shows(before, v, Joining(purpose), Resting) && !v.running && w < |v.pool|
    requires var pc := Last(before).workers[w].pc; pc.Reregistering? || (pc.Answering? && pc.todo == [])
    ensures Shows(run, v, Joining(purpose), Resting) && before < run
    ensures var s := Last(before); Last(run) == s.(workers := s.workers[w := s.workers[w].(pc := Wanting)])
  {
    hide Run, Call, CallerMay, Mainly, MainMay, StreamMay, StreamStep, Answers;
    run := Extend(before, WorkerDoes(w, if Last(before).workers[w].pc.Answering? then Done else GiveUp));
  }

  /** It finds nothing to do and leaves. */
  lemma WorkerLeaves(before: seq<State>, v: View, purpose: Purpose, w: nat) returns (run: seq<State>)
    requires Shows(before, v, Joining(purpose), Resting) && Stopped(Last(before), v, purpose) && w < |v.pool|
    requires Last(before).workers[w].pc == Wanting
    ensures Shows(run, v, Joining(purpose), Resting) && before < run
    ensures var s := Last(before); Last(run) == s.(workers := s.workers[w := s.workers[w].(pc := Exited)])
  {
    hide Run, Call, CallerMay, Mainly, MainMay, StreamMay, StreamStep;
    run := Extend(before, WorkerDoes(w, Lock));
    run := Extend(run, WorkerDoes(w, SeeStop));
    run := Extend(run, WorkerDoes(w, Leave));
  }

  lemma {:induction false} WorkersLeave(before: seq<State>, v: View, purpose: Purpose, n: nat) returns (run: seq<State>)
    requires Shows(before, v, Joining(purpose), Resting) && Stopped(Last(before), v, purpose) && n <= |v.pool|
    requires forall i | n <= i < |v.pool| :: Last(before).workers[i].pc == Exited
    ensures Shows(run, v, Joining(purpose), Resting) && before <= run
    ensures forall w | w in Last(run).workers :: w.pc == Exited
    ensures Last(run) == Last(before).(workers := Last(run).workers, returned := Last(run).returned)
    decreases n
  {
    hide Run;
    run := before;
    if n > 0 {
      if Last(before).workers[n - 1].pc != Exited {
        run := WorkerYields(run, v, purpose, n - 1);
        run := WorkerLeaves(run, v, purpose, n - 1);
      }
      run := WorkersLeave(run, v, purpose, n - 1);
    }
  }

  lemma PollerLeaves(before: seq<State>, v: View, main: MainPc) returns (run: seq<State>)
    requires Shows(before, v, main, Resting) && !v.running && Last(before).callers[POLLER] == Resting
    ensures Shows(run, v, main, Resting) && before <= run && !Last(run).poller
    ensures Last(run).workers == Last(before).workers
  {
    hide Run, Call, CallerMay, Mainly, MainMay, StreamMay, StreamStep, Work, WorkerMay;
    run := before;
    if Last(before).poller {
      run := Extend(before, PollerDoes(PollerExit));
    }
  }

  lemma StopsPool(before: seq<State>, v: View, purpose: Purpose) returns (run: seq<State>)
    requires Shows(before, v, Stopping(purpose), Resting) && PoolAtRest(Last(before))
    ensures before < run && Last(run).workers == []
    ensures Shows(run, v.(running := false, jobs := [], pool := [], configured := v.configured && purpose == Restart),
                  if purpose == Restart then Booting else Outside, Resting)
  {
    hide Run, Call, CallerMay, StreamMay, StreamStep, Work, WorkerMay, End, Start;
    var stopped := v.(running := false, jobs := []);
    run := NotifiesAll(before, v, purpose);
    run := WorkersLeave(run, stopped, purpose, |v.pool|);
    run := PollerLeaves(run, stopped, Joining(purpose));
    run := Extend(run, MainDoes(Continue));
  }

  lemma NotifiesAll(before: seq<State>, v: View, purpose: Purpose) returns (run: seq<State>)
    requires Shows(before, v, Stopping(purpose), Resting) && PoolAtRest(Last(before))
    ensures before < run && Shows(run, v.(running := false, jobs := []), Joining(purpose), Resting)
    ensures Stopped(Last(run), v.(running := false, jobs := []), purpose) && Last(run).callers == Last(before).callers
  {
    hide Run, Call, CallerMay, StreamMay, StreamStep, Work, WorkerMay, End, Start;
    run := Extend(before, MainDoes(Continue));
    run := Extend(run, MainDoes(Continue));
    run := Extend(run, MainDoes(Continue));
  }

  lemma {:induction false} Spawns(before: seq<State>, v: View, left: nat) returns (run: seq<State>)
    requires Shows(before, v, Spawning(left), Resting) && JobsMutexFree(Last(before))
    ensures before <= run && JobsMutexFree(Last(run))
    ensures Shows(run, v.(pool := v.pool + seq(left, i => ClientOf(v.config, v.url))), Spawning(0), Resting)
    decreases left
  {
    hide Shows;
    run := before;
    if left == 0 {
      assert v.pool + seq(left, i => ClientOf(v.config, v.url)) == v.pool;
    } else {
      var client := ClientOf(v.config, v.url);
      run := SpawnsOne(before, v, left);
      run := Spawns(run, v.(pool := v.pool + [client]), left - 1);
      assert [client] + seq(left - 1, i => client) == seq(left, i => client);
      assert v.pool + [client] + seq(left - 1, i => ClientOf(v.config, v.url))
          == v.pool + seq(left, i => ClientOf(v.config, v.url));
    }
  }

  lemma SpawnsOne(before: seq<State>, v: View, left: nat) returns (run: seq<State>)
    requires Shows(before, v, Spawning(left), Resting) && left > 0 && JobsMutexFree(Last(before))
    ensures Shows(run, v.(pool := v.pool + [ClientOf(v.config, v.url)]), Spawning(left - 1), Resting)
    ensures before < run && JobsMutexFree(Last(run))
  {
    hide Run, Call, CallerMay, StreamMay, StreamStep, Work, WorkerMay, End, Stop;
    run := Extend(before, MainDoes(Continue));
  }

  lemma Boots(before: seq<State>, v: View) returns (run: seq<State>)
    requires Shows(before, v, Booting, Resting) && v.pool == []
    ensures Shows(run, v.(running := true, jobs := v.jobs + [SERVER_INFO_JOB], pool := Pool(v.config, v.url)),
                  Outside, Resting)
    ensures before < run
  {
    hide Shows, PoolSize;
    run := BeginsToSpawn(before, v);
    run := Spawns(run, v.(running := true), PoolSize(v.config));
    assert [] + seq(PoolSize(v.config), i => ClientOf(v.config, v.url)) == Pool(v.config, v.url);
    run := EndsBooting(run, v.(running := true, pool := Pool(v.config, v.url)));
  }

  lemma BeginsToSpawn(before: seq<State>, v: View) returns (run: seq<State>)
    requires Shows(before, v, Booting, Resting) && v.pool == []
    ensures Shows(run, v.(running := true), Spawning(PoolSize(v.config)), Resting)
    ensures before < run && JobsMutexFree(Last(run))
  {
    hide Run, Call, CallerMay, StreamMay, StreamStep, Work, WorkerMay, End, Stop, PoolSize;
    run := Extend(before, MainDoes(Continue));
  }

  lemma EndsBooting(before: seq<State>, v: View) returns (run: seq<State>)
    requires Shows(before, v, Spawning(0), Resting) && JobsMutexFree(Last(before))
    ensures Shows(run, v.(jobs := v.jobs + [SERVER_INFO_JOB]), Outside, Resting) && before < run
  {
    hide Run, Call, CallerMay, StreamMay, StreamStep, Work, WorkerMay, End, Stop;
    run := Extend(before, MainDoes(Continue));
    run := HandsIn(run, v, MAIN, SERVER_INFO_JOB, InHand(SERVER_INFO_JOB));
  }

  /** What a manager looks like with these settings and a new pool. */
  function Renewed(v: View, config: Config): View {
    var url := match ParseUrl(config.url) case Accepted(url) => url case Rejected => v.url;
    v.(running := true, configured := true, config := config, url := url,
       jobs := (if v.running then [] else v.jobs) + [SERVER_INFO_JOB], pool := Pool(config, url))
  }

  /** The rest of a Configure that took its settings. */
  lemma Renews(before: seq<State>, v: View, config: Config) returns (run: seq<State>)
    requires ParseUrl(config.url).Accepted? && (v.running || v.pool == [])
    requires Shows(before, v.(configured := true, config := config, url := ParseUrl(config.url).url),
                   if v.running then Stopping(Restart) else Booting, Resting)
    requires v.running ==> PoolAtRest(Last(before))
    ensures Shows(run, Renewed(v, config), Outside, Resting) && before < run
  {
    hide Shows, ParseUrl;
    var w := v.(configured := true, config := config, url := ParseUrl(config.url).url);
    run := before;
    if v.running {
      run := StopsPool(run, w, Restart);
      w := w.(running := false, jobs := [], pool := []);
    }
    run := Boots(run, w);
  }

  lemma Configures(before: seq<State>, v: View, config: Config, tls: bool) returns (run: seq<State>)
    requires Shows(before, v, Outside, Resting) && (v.running || v.pool == [])
    requires v.running && v.slugs == map[] ==> PoolAtRest(Last(before))
    ensures GoesOn(before, MainDoes(MainAct.Configure(config, tls)), run)
    ensures Shows(run, if v.slugs == map[] && Usable(config, tls) then Renewed(v, config) else v, Outside, Resting)
  {
    hide Run, ParseUrl, CanContinue, ContinueMain, Renewed;
    run := Extend(before, MainDoes(MainAct.Configure(config, tls)));
    if v.slugs == map[] && Usable(config, tls) {
      run := Renews(run, v, config);
    }
  }

  function Reloaded(v: View, config: Config, tls: bool): View {
    if (v.running ==> ConnectionDiffers(v.config, config)) && v.slugs == map[] && Usable(config, tls) then
      Renewed(v, config)
    else if v.running then v.(config := v.config.(pollInterval := config.pollInterval))
    else v
  }

  lemma Reloads(before: seq<State>, v: View, config: Config, tls: bool) returns (run: seq<State>)
    requires Shows(before, v, Outside, Resting) && (v.running || v.pool == [])
    requires v.running && v.slugs == map[] ==> PoolAtRest(Last(before))
    ensures GoesOn(before, MainDoes(MainAct.Reload(config, tls)), run)
    ensures Shows(run, Reloaded(v, config, tls), Outside, Resting)
  {
    hide Run, ParseUrl, CanContinue, ContinueMain, Renewed, ConnectionDiffers;
    run := Extend(before, MainDoes(MainAct.Reload(config, tls)));
    if (v.running ==> ConnectionDiffers(v.config, config)) && v.slugs == map[] && Usable(config, tls) {
      run := Renews(run, v, config);
    }
  }

  // ----- taking stations down -----

  /** How far a thread that is told to stop is from its end. */
  function Distance(pc: StreamPc): nat {
    match pc
    case Ended => 0
    case Checking(_, _) => 1
    case LoopTop(_) => 1
    case Opening(_) => 1
    case Closing => 1
    case Starting => 2
    case Retrying(_, _) => 2
    case Settling(_) => 2
    case OpenFailed(_) => 2
    case Reading => 2
    case Registering(_, _) => 3
    case Refreshing(_) => 3
    case Refreshed(_) => 3
    case Handling(_, _) => 4
    case Announcing(_, _) => 4
    case Refusing(_) => 1
  }

  /** What it does next when whatever it is waiting for fails. */
  function Yielding(pc: StreamPc): StreamAct {
    match pc
    case Registering(_, _) => Answered(Failure([], []))
    case Opening(_) => OpenRefused([], [])
    case Reading => Quiet
    case _ => Go
  }

  /** A thread that can end without pushing an event or handing in a job. */
  predicate ThreadAtRest(s: State, id: nat)
    requires |s.callers| == STREAMS + |s.created|
  {
    id < |s.created| && Pending(s.created[id].pc) == [] && s.callers[STREAMS + id] == Resting
  }

  lemma StoppedThreadGoes(id: nat, st: Station, client: Client)
    requires st.pc != Ended && Pending(st.pc) == [] && StreamTrue(st.pc) && st.stopping
    ensures var move := Moving(id, st, true, false, client, Yielding(st.pc));
            && move.out == [] && !move.asks && move.st.slug == st.slug && move.st.stopping
            && st.clients <= move.st.clients
            && Pending(move.st.pc) == [] && Distance(move.st.pc) < Distance(st.pc)
  {
    assert |Ascii("unauthenticated")| == 15 && |Ascii("permission_denied")| == 17 && |Ascii("invalid_argument")| == 16;
  }

  lemma ThreadIsTrue(run: seq<State>, id: nat)
    requires run != [] && Run(run) && id < |Last(run).created|
    ensures StreamTrue(Last(run).created[id].pc)
  {
    hide Placed, JobTrue, WorkerTrue, EventTrue, CallerTrue, Numbered, StreamTrue;
    RequestsAlongRun(run, |run| - 1);
  }

  lemma ThreadGoes(before: seq<State>, v: View, main: MainPc, id: nat) returns (run: seq<State>)
    requires Shows(before, v, main, Resting) && id !in v.slugs && ThreadAtRest(Last(before), id)
    requires Last(before).created[id].stopping && Last(before).created[id].pc != Ended
    ensures Shows(run, v, main, Resting) && before < run && |Last(run).created| == |Last(before).created|
    ensures var s, st := Last(before), Last(run).created[id];
            && Last(run) == s.(created := s.created[id := st]) && st.stopping && Pending(st.pc) == []
            && Distance(st.pc) < Distance(s.created[id].pc)
  {
    hide Run, Call, CallerMay, Mainly, MainMay, Work, WorkerMay, Moving, StreamTrue, Distance, Pending;
    var s := Last(before);
    var st := s.created[id];
    ThreadIsTrue(before, id);
    StoppedThreadGoes(id, st, ClientOf(s.config, s.url));
    assert StreamMay(s, id, Yielding(st.pc));
    run := Extend(before, StreamDoes(id, Yielding(st.pc)));
    assert s.dispatch + [] == s.dispatch && s.pushed + Signed(ByStream(id), []) == s.pushed;
  }

  /** A thread that was told to stop ends. */
  lemma {:induction false} ThreadLeaves(before: seq<State>, v: View, main: MainPc, id: nat) returns (run: seq<State>)
    requires Shows(before, v, main, Resting) && id !in v.slugs && ThreadAtRest(Last(before), id)
    requires Last(before).created[id].stopping
    ensures Shows(run, v, main, Resting) && before <= run && |Last(run).created| == |Last(before).created|
    ensures var s, st := Last(before), Last(run).created[id];
            Last(run) == s.(created := s.created[id := st]) && st.stopping && st.pc == Ended
    decreases Distance(Last(before).created[id].pc)
  {
    hide Run, Pending;
    run := before;
    if Last(before).created[id].pc != Ended {
      run := ThreadGoes(before, v, main, id);
      run := ThreadLeaves(run, v, main, id);
    }
  }

  function Destroyed(v: View, id: int): View {
    if id !in v.slugs then v
    else
      v.(slugs := v.slugs - {id}, stops := v.stops - {id}, clients := v.clients - {id},
         jobs := v.jobs + [UnregisterJob(id)])
  }

  lemma DestroyedIs(v: View, id: int)
    requires v.stops.Keys == v.slugs.Keys && v.clients.Keys == v.slugs.Keys
    ensures Destroyed(v, id) ==
            v.(slugs := v.slugs - {id}, stops := v.stops - {id}, clients := v.clients - {id},
               jobs := if id in v.slugs then v.jobs + [UnregisterJob(id)] else v.jobs)
  {
    if id !in v.slugs {
      assert v.slugs - {id} == v.slugs && v.stops - {id} == v.stops && v.clients - {id} == v.clients;
    }
  }

  lemma Destroys(before: seq<State>, v: View, id: int) returns (run: seq<State>)
    requires Shows(before, v, Outside, Resting) && (id in v.slugs ==> JobsMutexFree(Last(before)))
    requires id in v.slugs && id >= 0 ==> ThreadAtRest(Last(before), id)
    ensures GoesOn(before, MainDoes(MainAct.Destroy(id)), run)
    ensures Shows(run, Destroyed(v, id), Outside, Resting)
  {
    if id !in v.slugs {
      hide Run, CanContinue, ContinueMain;
      run := Extend(before, MainDoes(MainAct.Destroy(id)));
    } else {
      hide Shows, GoesOn;
      var w := Destroyed(v, id).(jobs := v.jobs);
      run := TakesOut(before, v, id);
      assert before < run;
      run := ThreadLeaves(run, w, Awaiting(id), id);
      run := Unregisters(run, w, id);
    }
  }

  lemma TakesOut(before: seq<State>, v: View, id: int) returns (run: seq<State>)
    requires Shows(before, v, Outside, Resting) && id in v.slugs
    ensures 0 <= id < v.nextStation && GoesOn(before, MainDoes(MainAct.Destroy(id)), run)
    ensures Shows(run, Destroyed(v, id).(jobs := v.jobs), Awaiting(id), Resting)
    ensures var s, t := Last(before), Last(run);
            && t.created == StopStation(s.created, id) && t.callers == s.callers && t.workers == s.workers
  {
    hide Run, Call, CallerMay, Work, WorkerMay, StreamMay, StreamStep, Stop, Start;
    run := Extend(before, MainDoes(MainAct.Destroy(id)));
    run := Extend(run, MainDoes(Continue));
  }

  lemma Unregisters(before: seq<State>, v: View, id: nat) returns (run: seq<State>)
    requires Shows(before, v, Awaiting(id), Resting) && id !in v.slugs && id < v.nextStation
    requires Last(before).created[id].pc == Ended && JobsMutexFree(Last(before))
    ensures Shows(run, v.(jobs := v.jobs + [UnregisterJob(id)]), Outside, Resting) && before < run
  {
    hide Run, Call, CallerMay, Work, WorkerMay, StreamMay, StreamStep, Stop, Start;
    run := Extend(before, MainDoes(Continue));
    run := HandsIn(run, v, MAIN, UnregisterJob(id), InHand(UnregisterJob(id)));
  }

  // All stations at once.

  predicate AllListed(s: State, ids: seq<nat>) {
    forall i | 0 <= i < |ids| :: ids[i] < |s.created|
  }

  /** The first `n` of the threads to be taken down are told to stop; and they have ended. */
  predicate AllTold(s: State, ids: seq<nat>, n: nat) {
    n <= |ids| && forall i | 0 <= i < n :: ids[i] < |s.created| && s.created[ids[i]].stopping
  }

  predicate AllGone(s: State, ids: seq<nat>, n: nat) {
    n <= |ids| && forall i | 0 <= i < n :: ids[i] < |s.created| && s.created[ids[i]].pc == Ended
  }

  predicate AllAtRest(s: State, ids: seq<nat>) {
    |s.callers| == STREAMS + |s.created| && forall i | 0 <= i < |ids| :: ThreadAtRest(s, ids[i])
  }

  lemma {:induction false} TellsAll(before: seq<State>, v: View, ids: seq<nat>, next: nat) returns (run: seq<State>)
    requires Shows(before, v, Halting(ids, next), Resting) && v.slugs == map[]
    requires AllTold(Last(before), ids, next) && AllAtRest(Last(before), ids)
    ensures Shows(run, v, HaltJoining(ids), Resting) && before < run
    ensures AllTold(Last(run), ids, |ids|) && AllAtRest(Last(run), ids)
    ensures Last(run).workers == Last(before).workers && Last(run).callers == Last(before).callers
    decreases |ids| - next
  {
    hide Run, Call, CallerMay, Work, WorkerMay, StreamMay, StreamStep, Stop, Start, Pending;
    run := Extend(before, MainDoes(Continue));
    if next < |ids| {
      run := TellsAll(run, v, ids, next + 1);
    }
  }

  lemma {:induction false} ThreadsLeave(before: seq<State>, v: View, ids: seq<nat>, n: nat) returns (run: seq<State>)
    requires Shows(before, v, HaltJoining(ids), Resting) && v.slugs == map[]
    requires AllTold(Last(before), ids, |ids|) && AllAtRest(Last(before), ids) && AllGone(Last(before), ids, n)
    ensures Shows(run, v, HaltJoining(ids), Resting) && before <= run && AllGone(Last(run), ids, |ids|)
    ensures Last(run).workers == Last(before).workers && Last(run).callers == Last(before).callers
    decreases |ids| - n
  {
    hide Run;
    run := before;
    if n < |ids| {
      run := ThreadLeaves(before, v, HaltJoining(ids), ids[n]);
      run := ThreadsLeave(run, v, ids, n + 1);
    }
  }

  function Halted(v: View): View {
    if !v.running then v
    else
      v.(running := false, configured := false, slugs := map[], stops := map[], clients := map[], jobs := [],
         pool := [])
  }

  lemma Halts(before: seq<State>, v: View) returns (run: seq<State>)
    requires Shows(before, v, Outside, Resting)
    requires v.running ==> PoolAtRest(Last(before)) && forall id: nat | id in v.slugs :: ThreadAtRest(Last(before), id)
    ensures GoesOn(before, MainDoes(MainAct.Shutdown), run)
    ensures Shows(run, Halted(v), Outside, Resting)
  {
    hide Run, Call, CallerMay, Work, WorkerMay, StreamMay, StreamStep, Stop, Start, LiveIds;
    run := Extend(before, MainDoes(MainAct.Shutdown));
    if v.running {
      var w := v.(slugs := map[], stops := map[], clients := map[]);
      var ids := LiveIds(Last(before), 0);
      forall i | 0 <= i < |ids| ensures ThreadAtRest(Last(before), ids[i]) {
        LiveIdsAreAll(Last(before), 0, ids[i]);
      }
      run := TellsAll(run, w, ids, 0);
      run := AllLeave(run, w, ids);
    }
  }

  lemma AllLeave(before: seq<State>, v: View, ids: seq<nat>) returns (run: seq<State>)
    requires Shows(before, v, HaltJoining(ids), Resting) && v.slugs == map[] && PoolAtRest(Last(before))
    requires AllTold(Last(before), ids, |ids|) && AllAtRest(Last(before), ids)
    ensures Shows(run, v.(running := false, configured := false, jobs := [], pool := []), Outside, Resting)
    ensures before < run
  {
    hide Run, Call, CallerMay, Work, WorkerMay, StreamMay, StreamStep, Stop, Start;
    run := ThreadsLeave(before, v, ids, 0);
    run := Extend(run, MainDoes(Continue));
    run := StopsPool(run, v, Halt);
  }

  // ----- the other threads -----

  /** What of a step of another thread there is to see: a job taken, an event pushed, an id given out, a job queued. */
  datatype Seen = Nothing | Takes | Pushes(event: PawnEvent) | Issues | Enqueues(job: Job)

  function SeenIn(s: State, step: Step): Seen
    requires Enabled(s, step)
  {
    match step
    case WorkerDoes(w, act) =>
      if act.Take? then Takes else if act.PushAnswer? then Pushes(s.workers[w].pc.todo[0]) else Nothing
    case CallerDoes(c, act) =>
      if act.IssueStatus? then Issues else if act.PushJob? then Enqueues(s.callers[c].job) else Nothing
    case StreamDoes(id, act) =>
      var out := MoveOf(s, id, act).out;
      if out == [] then Nothing else Pushes(out[0])
    case _ => Nothing
  }

  function After(v: View, seen: Seen): View {
    match seen
    case Nothing => v
    case Takes => if v.jobs == [] then v else v.(jobs := v.jobs[1..])
    case Pushes(event) => v.(dispatch := v.dispatch + [event])
    case Issues => v.(nextRequest := v.nextRequest + 1)
    case Enqueues(job) => v.(jobs := v.jobs + [job])
  }

  lemma MovePushesOne(s: State, id: nat, act: StreamAct)
    requires StreamMay(s, id, act)
    ensures |MoveOf(s, id, act).out| <= 1
  {
    hide CallbackFor, Permanent, RegisteredEvent, ErrorEvent;
  }

  lemma OthersShow(before: seq<State>, v: View, step: Step) returns (run: seq<State>)
    requires Shows(before, v, Outside, Resting) && Enabled(Last(before), step) && !step.MainDoes?
    ensures run == before + [Do(Last(before), step)]
    ensures Shows(run, After(v, SeenIn(Last(before), step)), Outside, Resting)
  {
    hide Run, Work, WorkerMay, Call, CallerMay, StreamMay, StreamStep, Mainly, MainMay;
    var s := Last(before);
    run := Extend(before, step);
    assert run == before + [Do(s, step)];
    match step
    case WorkerDoes(w, act) => WorkerShows(s, v, w, act);
    case CallerDoes(c, act) => CallerShows(s, v, c, act);
    case StreamDoes(id, act) => StreamShows(s, v, id, act);
    case PollerDoes(_) =>
  }

  lemma WorkerShows(s: State, v: View, w: nat, act: WorkerAct)
    requires Shown(v, s) && WorkerMay(s, w, act)
    ensures Shown(After(v, SeenIn(s, WorkerDoes(w, act))), Work(s, w, act))
    ensures var t := Work(s, w, act); t.main == s.main && t.callers == s.callers && t.created == s.created
  {
    hide Answers, RegisteredEvent, ErrorEvent, Signed, StationStops;
  }

  lemma CallerShows(s: State, v: View, c: nat, act: CallerAct)
    requires Shown(v, s) && CallerMay(s, c, act) && |s.callers| >= STREAMS && s.callers[MAIN] == Resting
    ensures Shown(After(v, SeenIn(s, CallerDoes(c, act))), Call(s, c, act))
    ensures var t := Call(s, c, act);
            t.main == s.main && |t.callers| == |s.callers| && t.callers[MAIN] == Resting && t.created == s.created
  {
  }

  lemma StillShown(v: View, s: State, t: State, id: nat, st: Station)
    requires Shown(v, s) && id < |s.created| && t.created == s.created[id := st]
    requires t == s.(created := t.created, dispatch := t.dispatch, pushed := t.pushed, callers := t.callers)
    requires var was := s.created[id];
             st.slug == was.slug && st.stopping == was.stopping && was.clients <= st.clients
    ensures v.dispatch == s.dispatch && Shown(v.(dispatch := t.dispatch), t)
  {
  }

  lemma StreamFits(s: State, id: nat, act: StreamAct)
    requires StreamMay(s, id, act)
    ensures id < |s.created| && Fitting(s.created[id], act)
  {
  }

  lemma StreamShows(s: State, v: View, id: nat, act: StreamAct)
    requires Shown(v, s) && StreamMay(s, id, act)
    ensures Shown(After(v, SeenIn(s, StreamDoes(id, act))), StreamStep(s, id, act))
    ensures var t := StreamStep(s, id, act);
            && t.main == s.main && |t.created| == |s.created|
            && |t.callers| == |s.callers| && t.callers[MAIN] == s.callers[MAIN]
  {
    hide Moving, StreamStep, StreamMay, Signed, Shown;
    StreamFits(s, id, act);
    var st, t := s.created[id], StreamStep(s, id, act);
    StreamMoves(s, id, act);
    StreamLeavesPool(s, id, act);
    MovePushesOne(s, id, act);
    MoveKeepsIdentity(id, st, st.stopping || !s.running, id in s.stations, ClientOf(s.config, s.url), act);
    MoveConnects(id, st, st.stopping || !s.running, id in s.stations, ClientOf(s.config, s.url), act);
    StillShown(v, s, t, id, t.created[id]);
    var out := MoveOf(s, id, act).out;
    assert s.dispatch + [] == s.dispatch && (out != [] ==> out == [out[0]]);
    assert After(v, SeenIn(s, StreamDoes(id, act))) == v.(dispatch := t.dispatch);
  }

  /** A call returns: what answers the job is pushed, and the worker is free again. */
  lemma WorkerAnswers(before: seq<State>, v: View, w: nat, job: Job, reply: Reply) returns (run: seq<State>)
    requires Shows(before, v, Outside, Resting) && w < |Last(before).workers|
    requires Last(before).workers[w].pc == Calling(job)
    ensures GoesOn(before, WorkerDoes(w, Return(reply)), run)
    ensures Shows(run, v.(dispatch := v.dispatch + Answers(job, reply)), Outside, Resting)
    ensures w < |Last(run).workers| && Last(run).workers[w].pc == Wanting
  {
    hide Run, Answers, Shown;
    run := OthersShow(before, v, WorkerDoes(w, Return(reply)));
    run := PushesAll(run, v, w, job, Answers(job, reply));
  }

  lemma {:induction false} PushesAll(before: seq<State>, v: View, w: nat, job: Job, todo: seq<PawnEvent>)
    returns (run: seq<State>)
    requires Shows(before, v, Outside, Resting)
    requires w < |Last(before).workers| && Last(before).workers[w].pc == Answering(job, todo)
    ensures Shows(run, v.(dispatch := v.dispatch + todo), Outside, Resting) && before < run
    ensures w < |Last(run).workers| && Last(run).workers[w].pc == Wanting
    decreases |todo|
  {
    hide Run, Shown;
    if todo == [] {
      assert v.(dispatch := v.dispatch + todo) == v;
      run := OthersShow(before, v, WorkerDoes(w, Done));
    } else {
      run := OthersShow(before, v, WorkerDoes(w, PushAnswer));
      assert v.dispatch + [todo[0]] + todo[1..] == v.dispatch + todo;
      run := PushesAll(run, v.(dispatch := v.dispatch + [todo[0]]), w, job, todo[1..]);
    }
  }

  /** One step of a stream thread, and where it leaves the thread. */
  lemma StreamTakes(before: seq<State>, v: View, id: nat, act: StreamAct) returns (run: seq<State>)
    requires Shows(before, v, Outside, Resting) && StreamMay(Last(before), id, act)
    ensures run == before + [Do(Last(before), StreamDoes(id, act))]
    ensures Shows(run, After(v, SeenIn(Last(before), StreamDoes(id, act))), Outside, Resting)
    ensures var s, t := Last(before), Last(run); var move := MoveOf(s, id, act);
            && id < |s.created| && t.created == s.created[id := move.st] && t.workers == s.workers
            && t.stations == s.stations && t.nextRequest == s.nextRequest && |t.callers| == |s.callers|
            && t.callers == if move.asks then s.callers[STREAMS + id := Found(id)] else s.callers
  {
    hide Run, Shown, Moving;
    run := OthersShow(before, v, StreamDoes(id, act));
    StreamMoves(Last(before), id, act);
    StreamLeavesPool(Last(before), id, act);
  }

  /** What is seen of an event that is read. */
  function Heeded(v: View, id: nat, event: Value): View {
    var w := v.(dispatch := v.dispatch + CallbackFor(id, event));
    if ChangesTrack(event) && id in v.slugs then Asked(w, StatusJob(id).(request := v.nextRequest + 1)) else w
  }

  /** An event is read: its callback is pushed, a status job handed in if it changed the track, and the thread reads
      on. */
  lemma StreamHears(before: seq<State>, v: View, id: nat, event: Value) returns (run: seq<State>)
    requires Shows(before, v, Outside, Resting) && JobsMutexFree(Last(before))
    requires id < |Last(before).created| && Last(before).created[id].pc == Reading
    requires Last(before).callers[STREAMS + id] == Resting
    ensures GoesOn(before, StreamDoes(id, Heard(event)), run)
    ensures Shows(run, Heeded(v, id, event), Outside, Resting)
    ensures id < |Last(run).created| && Last(run).created[id].pc == Reading
  {
    hide Run, CallbackFor, ChangesTrack, Do, Shows, Enabled;
    run := StreamTells(before, v, id, event);
    if ChangesTrack(event) {
      run := StreamAsks(run, v.(dispatch := v.dispatch + CallbackFor(id, event)), id);
    }
  }

  lemma StreamTells(before: seq<State>, v: View, id: nat, event: Value) returns (run: seq<State>)
    requires Shows(before, v, Outside, Resting)
    requires id < |Last(before).created| && Last(before).created[id].pc == Reading
    ensures GoesOn(before, StreamDoes(id, Heard(event)), run)
    ensures Shows(run, v.(dispatch := v.dispatch + CallbackFor(id, event)), Outside, Resting)
    ensures var s, t := Last(before), Last(run);
            && id < |t.created| && t.created[id].pc == (if ChangesTrack(event) then Refreshing(Reading) else Reading)
            && t.workers == s.workers && t.callers == s.callers
  {
    hide Run, Shown, CallbackFor, ChangesTrack, Do, StreamStep, KindOf, TypeOf;
    KindTells(id, event);
    run := StreamTakes(before, v, id, Heard(event));
    run := StreamPushes(run, v, id, CallbackFor(id, event), ChangesTrack(event));
  }

  lemma StreamPushes(before: seq<State>, v: View, id: nat, todo: seq<PawnEvent>, refresh: bool)
    returns (run: seq<State>)
    requires Shows(before, v, Outside, Resting) && |todo| <= 1
    requires id < |Last(before).created| && Last(before).created[id].pc == Handling(todo, refresh)
    ensures Shows(run, v.(dispatch := v.dispatch + todo), Outside, Resting) && before < run
    ensures var s, t := Last(before), Last(run);
            && id < |t.created| && t.created[id].pc == (if refresh then Refreshing(Reading) else Reading)
            && t.workers == s.workers && t.callers == s.callers
  {
    hide Run, Shown, Do;
    run := before;
    var w := v;
    if todo != [] {
      assert todo == [todo[0]] && todo[1..] == [];
      w := v.(dispatch := v.dispatch + todo);
      run := StreamTakes(run, v, id, Go);
    }
    assert w == v.(dispatch := v.dispatch + todo);
    run := StreamTakes(run, w, id, Go);
  }

  /** A thread that is to ask for the status does if its station is still there. */
  lemma StreamAsks(before: seq<State>, v: View, id: nat) returns (run: seq<State>)
    requires Shows(before, v, Outside, Resting) && JobsMutexFree(Last(before))
    requires id < |Last(before).created| && Last(before).created[id].pc == Refreshing(Reading)
    requires Last(before).callers[STREAMS + id] == Resting
    ensures Shows(run, if id in v.slugs then Asked(v, StatusJob(id).(request := v.nextRequest + 1)) else v,
                  Outside, Resting)
    ensures before < run && id < |Last(run).created| && Last(run).created[id].pc == Reading
  {
    hide Run, Do;
    assert id in v.slugs <==> id in Last(before).stations;
    hide Shown;
    run := StreamTakes(before, v, id, Go);
    if id in v.slugs {
      run := ThreadAsks(run, v, id);
    }
  }

  /** An id is given out for a status job, the job handed in, and the thread reads on. */
  lemma ThreadAsks(before: seq<State>, v: View, id: nat) returns (run: seq<State>)
    requires Shows(before, v, Outside, Resting) && JobsMutexFree(Last(before))
    requires id < |Last(before).created| && Last(before).created[id].pc == Refreshed(Reading)
    requires Last(before).callers[STREAMS + id] == Found(id)
    ensures Shows(run, Asked(v, StatusJob(id).(request := v.nextRequest + 1)), Outside, Resting) && before < run
    ensures id < |Last(run).created| && Last(run).created[id].pc == Reading
  {
    hide Run, Shown, Do;
    var job := StatusJob(id).(request := v.nextRequest + 1);
    run := ThreadIssues(before, v, id);
    run := HandsIn(run, v.(nextRequest := v.nextRequest + 1), STREAMS + id, job, Resting);
    run := StreamTakes(run, Asked(v, job), id, Go);
  }

  lemma ThreadIssues(before: seq<State>, v: View, id: nat) returns (run: seq<State>)
    requires Shows(before, v, Outside, Resting) && id < |Last(before).created|
    requires Last(before).callers[STREAMS + id] == Found(id)
    ensures Shows(run, v.(nextRequest := v.nextRequest + 1), Outside, Resting) && before < run
    ensures var s, t := Last(before), Last(run);
            && t.callers == s.callers[STREAMS + id := InHand(StatusJob(id).(request := v.nextRequest + 1))]
            && t.created == s.created && t.workers == s.workers
  {
    hide Run;
    assert v.nextRequest == Last(before).nextRequest;
    hide Shown;
    run := OthersShow(before, v, CallerDoes(STREAMS + id, IssueStatus));
  }
}
