/**
 The manager as a step system: the main thread, the status poller, the worker pool and one stream thread a
 station, over the state they share. Every section a thread runs under a mutex is one step, and so is every
 read or write of an atomic flag outside one; the one section that is not a single step is a worker's, which
 may hold `jobs_mutex_` across the evaluation of its predicate and let go only when it is parked. A remote
 call is a step whose outcome is arbitrary.
 */
module Managers {
  import opened Bytes
  import opened Json
  import opened StatusCache
  import opened Urls

  // ----- jobs and what they are answered with -----

  datatype JobKind =
    | JobRegister | JobUnregister | JobQueueTrack | JobCommand | JobStatus | JobListStations | JobServerInfo

  /** `request` is 0 when nobody is told of the outcome by number. */
  datatype Job = Job(kind: JobKind, station: int, request: nat, command: bytes, flagKey: bytes, resultKey: bytes)

  /** What a remote call returns: a response, or an error code and its message. */
  datatype Reply = Success(resp: Value) | Failure(code: bytes, message: bytes)

  /** Errors that retrying cannot change. */
  predicate Permanent(code: bytes) {
    code == Ascii("unauthenticated") || code == Ascii("permission_denied") || code == Ascii("invalid_argument")
  }

  /** Jobs whose caller waits for an event that carries the request id. */
  predicate Answerable(job: Job) {
    job.kind == JobCommand || job.kind == JobQueueTrack
  }

  /** The events a worker pushes for a job it called, in order. */
  function Answers(job: Job, reply: Reply): seq<PawnEvent> {
    var blank := BLANK.(station := job.station, request := job.request);
    match reply
    case Failure(code, message) =>
      if job.kind == JobUnregister then []
      else
        (if Answerable(job) then [blank.(kind := EvCommandResult, text := job.command)] else [])
        + [ErrorEvent(job.station, code, message)]
    case Success(resp) =>
      match job.kind
      case JobQueueTrack =>
        [blank.(kind := EvTrackQueued, queueId := Str(resp, Ascii("queueId"), []),
                text := Str(resp, Ascii("status"), []), num2 := Int(resp, Ascii("queuePosition"), 0), flag := true)]
      case JobCommand =>
        var flag := if job.flagKey == [] then true else Truth(resp, job.flagKey, false);
        var result := if job.resultKey == [] then (if flag then 1 else 0) else Int(resp, job.resultKey, 0);
        [blank.(kind := EvCommandResult, text := job.command, flag := flag, num1 := result)]
      case JobStatus => [blank.(kind := EvStatusUpdate)]
      case JobListStations =>
        [BLANK.(kind := EvStationList, request := job.request, num1 := |ElemsOf(Get(resp, Ascii("stations")))|)]
      case JobServerInfo => [BLANK.(kind := EvServerInfo, text := Str(resp, Ascii("version"), []))]
      case JobUnregister => []
      case JobRegister => []
  }

  /** The event of a successful registration. */
  function RegisteredEvent(station: int, resp: Value, reconnect: bool): PawnEvent {
    BLANK.(kind := EvStationRegistered, station := station, text := Str(resp, Ascii("streamUrl"), []),
           flag := Truth(resp, Ascii("reRegistered"), false), num1 := if reconnect then 1 else 0)
  }

  // ----- settings -----

  datatype Config = Config(url: bytes, token: bytes, pollInterval: int, timeout: int, workers: int)

  /** Everything a connection is built from. */
  datatype Client = Client(url: Url, token: bytes, timeout: int)

  predicate ConnectionDiffers(a: Config, b: Config) {
    a.url != b.url || a.token != b.token || a.timeout != b.timeout || a.workers != b.workers
  }

  /** Whether Configure takes these settings when no station exists. */
  predicate Usable(config: Config, tls: bool) {
    && config.token != []
    && ParseUrl(config.url).Accepted?
    && (Secure(ParseUrl(config.url).url) ==> tls)
  }

  function PoolSize(config: Config): nat {
    if config.workers < 1 then 1 else config.workers
  }

  function ClientOf(config: Config, url: Url): Client {
    Client(url, config.token, config.timeout)
  }

  function Pool(config: Config, url: Url): seq<Client> {
    seq(PoolSize(config), i => ClientOf(config, url))
  }

  // ----- the backoff -----

  const MIN_BACKOFF: nat := 1000
  const MAX_BACKOFF: nat := 30000

  function NextBackoff(current: nat): nat {
    var next := current * 2;
    if next > MAX_BACKOFF then MAX_BACKOFF else next
  }

  // ----- threads -----

  /** A worker: `Wanting` the lock, `Locked` before its predicate is evaluated, `Leaving` and `Parking` between
      that and letting the lock go, `Parked` in the wait. */
  datatype WorkerPc =
    | Wanting
    | Locked
    | Leaving
    | Parking
    | Parked
    | Calling(job: Job)
    | Reregistering(job: Job)
    | Answering(job: Job, todo: seq<PawnEvent>)
    | Exited

  datatype Worker = Worker(client: Client, pc: WorkerPc)

  predicate Holds(pc: WorkerPc) {
    pc == Locked || pc == Leaving || pc == Parking
  }

  /** How far a thread is with handing a job over: a station found, a job in hand, the job pushed but the
      workers not yet notified. */
  datatype Caller = Resting | Found(station: int) | InHand(job: Job) | Notifying

  // Thread numbers: the main thread, the poller, then the stream threads in the order of their stations.
  const MAIN: nat := 0
  const POLLER: nat := 1
  const STREAMS: nat := 2

  datatype Purpose = Restart | Halt

  datatype MainPc =
    | Outside
    | Stopping(purpose: Purpose)
    | Clearing(purpose: Purpose)
    | Waking(purpose: Purpose)
    | Joining(purpose: Purpose)
    | Booting
    | Spawning(left: nat)
    | Ending(id: nat)
    | Awaiting(id: nat)
    | Halting(ids: seq<nat>, next: nat)
    | HaltJoining(ids: seq<nat>)

  datatype StreamPc =
    | Starting
    | Checking(reconnect: bool, backoff: nat)
    | Registering(reconnect: bool, backoff: nat)
    | Announcing(reconnect: bool, event: PawnEvent)
    | Refusing(event: PawnEvent)
    | Retrying(reconnect: bool, backoff: nat)
    | Refreshing(after: StreamPc)
    | Refreshed(after: StreamPc)
    | Settling(backoff: nat)
    | LoopTop(backoff: nat)
    | Opening(backoff: nat)
    | OpenFailed(backoff: nat)
    | Reading
    | Handling(todo: seq<PawnEvent>, refresh: bool)
    | Closing
    | Ended

  /** What a stream thread did, and the enqueueing of the station's UnregisterStation. `Asked`: it came to where it asks
      for the status, which it does when its station still is in the registry; `Disconnected`: it has read the last of
      a stream. */
  datatype Act =
    | SentRegister(reconnect: bool)
    | RegisterFailed(wait: nat)
    | Registered(reconnect: bool, resp: Value)
    | SentSubscribe
    | SubscribeFailed(wait: nat)
    | Abandoned
    | Settled(wait: nat)
    | Asked(listed: bool)
    | Disconnected
    | Subscribed
    | Received(event: Value)
    | Refused(code: bytes, message: bytes)
    | Pushed(callback: PawnEvent)
    | Unregistered

  /** A station that was created, whether it still is registered or not. `made` are the settings at its creation;
      `clients` are the connections built for it: its stream's, and the one its thread makes calls on. */
  datatype Station = Station(
    slug: bytes, made: Config, clients: seq<Client>, stopping: bool, pc: StreamPc, trace: seq<Act>)

  datatype Author = ByWorker | ByStream(id: nat)

  datatype Push = Push(author: Author, event: PawnEvent)

  /** `stations` is the registry, by slug; `created` holds every station there ever was, at its id. The last six
      fields are history: every id handed out, every job pushed, every event pushed, every event the main thread was
      given, every job StopWorkers threw away, and what every call of a worker returned, with the id of its job. */
  datatype State = State(
    running: bool, configured: bool, config: Config, url: Url,
    stations: map<int, bytes>, created: seq<Station>, nextRequest: nat,
    jobs: seq<Job>, dispatch: seq<PawnEvent>,
    workers: seq<Worker>, poller: bool, callers: seq<Caller>, main: MainPc,
    issued: seq<Job>, enqueued: seq<Job>, pushed: seq<Push>, delivered: seq<PawnEvent>, dropped: seq<Job>,
    returned: seq<(nat, Reply)>)

  const DEFAULT_CONFIG := Config(Ascii("http://127.0.0.1:9090"), [], 5000, 10000, 2)

  const NO_URL := Url([], [], 0, [])

  const INITIAL :=
    State(false, false, DEFAULT_CONFIG, NO_URL, map[], [], 0, [], [], [], false, [Resting, Resting], Outside,
          [], [], [], [], [], [])

  ghost predicate Init(s: State) {
    s == INITIAL
  }

  // ----- shared sections -----

  predicate JobsMutexFree(s: State) {
    forall w | w in s.workers :: !Holds(w.pc)
  }

  function Signed(author: Author, events: seq<PawnEvent>): seq<Push> {
    seq(|events|, i requires 0 <= i < |events| => Push(author, events[i]))
  }

  /** The next request id, put into `job`, which thread `c` now has in hand. */
  function Issue(s: State, c: nat, job: Job): State
    requires c < |s.callers|
  {
    var numbered := job.(request := s.nextRequest + 1);
    s.(nextRequest := s.nextRequest + 1, issued := s.issued + [numbered], callers := s.callers[c := InHand(numbered)])
  }

  function InThread(s: State, w: nat, pc: WorkerPc): State
    requires w < |s.workers|
  {
    s.(workers := s.workers[w := s.workers[w].(pc := pc)])
  }

  // ----- workers -----

  datatype WorkerAct =
    | Lock
    | Take
    | SeeStop
    | Leave
    | WillWait
    | Park
    | WakeUp
    | Return(reply: Reply)
    | GiveUp
    | Reregister(reply: Reply)
    | PushAnswer
    | Done

  predicate WorkerMay(s: State, w: nat, act: WorkerAct) {
    && w < |s.workers|
    && var pc := s.workers[w].pc;
       match act
       case Lock => pc == Wanting && JobsMutexFree(s)
       case Take => pc == Locked && s.jobs != []
       case SeeStop => pc == Locked && s.jobs == [] && !s.running
       case Leave => pc == Leaving
       case WillWait => pc == Locked && s.jobs == [] && s.running
       case Park => pc == Parking
       case WakeUp => pc == Parked
       case Return(_) => pc.Calling?
       case GiveUp => pc.Reregistering? && (StationStops(s, pc.job.station) || !s.running)
       case Reregister(reply) => pc.Reregistering? && (reply.Failure? ==> Permanent(reply.code))
       case PushAnswer => pc.Answering? && pc.todo != []
       case Done => pc.Answering? && pc.todo == []
  }

  predicate StationStops(s: State, id: int) {
    0 <= id < |s.created| ==> s.created[id].stopping
  }

  function Work(s: State, w: nat, act: WorkerAct): State
    requires WorkerMay(s, w, act)
  {
    var pc := s.workers[w].pc;
    match act
    case Lock => InThread(s, w, Locked)
    case Take =>
      var job := s.jobs[0];
      InThread(s.(jobs := s.jobs[1..]), w, if job.kind == JobRegister then Reregistering(job) else Calling(job))
    case SeeStop => InThread(s, w, Leaving)
    case Leave => InThread(s, w, if s.running then Wanting else Exited)
    case WillWait => InThread(s, w, Parking)
    case Park => InThread(s, w, Parked)
    case WakeUp => InThread(s, w, Wanting)
    case Return(reply) =>
      InThread(s.(returned := s.returned + [(pc.job.request, reply)]), w, Answering(pc.job, Answers(pc.job, reply)))
    case GiveUp => InThread(s, w, Wanting)
    case Reregister(reply) =>
      var event := match reply
                   case Success(resp) => RegisteredEvent(pc.job.station, resp, false)
                   case Failure(code, message) => ErrorEvent(pc.job.station, code, message);
      InThread(s, w, Answering(pc.job, [event]))
    case PushAnswer =>
      InThread(s.(dispatch := s.dispatch + pc.todo[..1], pushed := s.pushed + Signed(ByWorker, pc.todo[..1])),
               w, pc.(todo := pc.todo[1..]))
    case Done => InThread(s, w, Wanting)
  }

  // ----- handing jobs over -----

  /** `Notify(w)`: notify_one wakes worker `w`, any of the parked ones; `NotifyNobody` when none is. */
  datatype CallerAct = IssueStatus | PushJob | Notify(w: nat) | NotifyNobody

  predicate CallerMay(s: State, c: nat, act: CallerAct) {
    && c < |s.callers|
    && match act
       case IssueStatus => s.callers[c].Found?
       case PushJob => s.callers[c].InHand? && JobsMutexFree(s)
       case Notify(w) => s.callers[c] == Notifying && w < |s.workers| && s.workers[w].pc == Parked
       case NotifyNobody => s.callers[c] == Notifying && forall w | w in s.workers :: w.pc != Parked
  }

  function StatusJob(id: int): Job {
    Job(JobStatus, id, 0, [], [], [])
  }

  function Call(s: State, c: nat, act: CallerAct): State
    requires CallerMay(s, c, act)
  {
    match act
    case IssueStatus => Issue(s, c, StatusJob(s.callers[c].station))
    case PushJob =>
      s.(jobs := s.jobs + [s.callers[c].job], enqueued := s.enqueued + [s.callers[c].job],
         callers := s.callers[c := Notifying])
    case Notify(w) => InThread(s.(callers := s.callers[c := Resting]), w, Wanting)
    case NotifyNobody => s.(callers := s.callers[c := Resting])
  }

  // ----- the main thread -----

  datatype MainAct =
    | Configure(config: Config, tls: bool)
    | Reload(config: Config, tls: bool)
    | Create(slug: bytes)
    | Destroy(id: int)
    | Shutdown
    | Command(id: int, kind: JobKind, command: bytes, flagKey: bytes, resultKey: bytes)
    | RefreshStatus(id: int)
    | ListStations
    | UpdateStation(id: int)
    | Tick
    | Continue

  predicate Idle(s: State)
    requires |s.callers| >= STREAMS
  {
    s.main == Outside && s.callers[MAIN] == Resting
  }

  predicate MainMay(s: State, act: MainAct)
    requires |s.callers| >= STREAMS
  {
    match act
    case Continue => s.main != Outside && s.callers[MAIN] == Resting && CanContinue(s)
    case Command(_, kind, _, _, _) => Idle(s) && (kind == JobCommand || kind == JobQueueTrack)
    case _ => Idle(s)
  }

  predicate AllEnded(s: State, ids: seq<nat>) {
    forall id | id in ids :: id < |s.created| && s.created[id].pc == Ended
  }

  /** What the next step of an operation under way waits for: the jobs mutex to be free, threads to join. */
  predicate CanContinue(s: State) {
    match s.main
    case Clearing(_) => JobsMutexFree(s)
    case Joining(_) => !s.poller && forall w | w in s.workers :: w.pc == Exited
    case Ending(id) => id < |s.created|
    case Awaiting(id) => id < |s.created| && s.created[id].pc == Ended
    case Halting(ids, next) => next < |ids| ==> ids[next] < |s.created|
    case HaltJoining(ids) => AllEnded(s, ids)
    case _ => true
  }

  predicate ConfigureAccepts(s: State, config: Config, tls: bool) {
    s.stations == map[] && Usable(config, tls)
  }

  function Configuring(s: State, config: Config, tls: bool): State {
    if !ConfigureAccepts(s, config, tls) then s
    else
      s.(config := config, url := ParseUrl(config.url).url, configured := true,
         main := if s.running then Stopping(Restart) else Booting)
  }

  function Reloading(s: State, config: Config, tls: bool): State {
    if !s.running then Configuring(s, config, tls)
    else
      var polled := s.(config := s.config.(pollInterval := config.pollInterval));
      if ConnectionDiffers(s.config, config) && s.stations == map[] then Configuring(polled, config, tls) else polled
  }

  predicate CreateAccepts(s: State, slug: bytes) {
    slug != [] && s.configured && slug !in s.stations.Values
  }

  function Creating(s: State, slug: bytes): State {
    if !CreateAccepts(s, slug) then s
    else
      s.(stations := s.stations[|s.created| := slug],
         created := s.created + [Station(slug, s.config, [ClientOf(s.config, s.url)], false, Starting, [])],
         callers := s.callers + [Resting])
  }

  /** The live ids, in increasing order, as the registry is iterated. */
  function LiveIds(s: State, from: nat): seq<nat>
    requires from <= |s.created|
    decreases |s.created| - from
  {
    if from == |s.created| then []
    else (if from in s.stations then [from] else []) + LiveIds(s, from + 1)
  }

  function UnregisterJob(id: int): Job {
    Job(JobUnregister, id, 0, [], [], [])
  }

  const SERVER_INFO_JOB := Job(JobServerInfo, INVALID_STATION, 0, [], [], [])

  // Which operation a position of the main thread belongs to.

  predicate InStop(main: MainPc) {
    main.Stopping? || main.Clearing? || main.Waking? || main.Joining?
  }

  predicate InStart(main: MainPc) {
    main.Booting? || main.Spawning?
  }

  predicate InEnd(main: MainPc) {
    main.Ending? || main.Awaiting? || main.Halting? || main.HaltJoining?
  }

  /** StopWorkers. */
  function Stop(s: State): State
    requires InStop(s.main)
  {
    match s.main
    case Stopping(purpose) => s.(running := false, main := Clearing(purpose))
    case Clearing(purpose) => s.(dropped := s.dropped + s.jobs, jobs := [], main := Waking(purpose))
    case Waking(purpose) => s.(workers := WakeAll(s.workers), main := Joining(purpose))
    case Joining(purpose) =>
      s.(workers := [], configured := s.configured && purpose == Restart,
         main := if purpose == Restart then Booting else Outside)
  }

  /** The rest of Configure. */
  function Start(s: State): State
    requires |s.callers| >= STREAMS && InStart(s.main)
  {
    match s.main
    case Booting => s.(running := true, main := Spawning(PoolSize(s.config)))
    case Spawning(left) =>
      if left > 0 then
        s.(workers := s.workers + [Worker(ClientOf(s.config, s.url), Wanting)], main := Spawning(left - 1))
      else
        s.(poller := true, callers := s.callers[MAIN := InHand(SERVER_INFO_JOB)], main := Outside)
  }

  function StopStation(created: seq<Station>, id: nat): seq<Station>
    requires id < |created|
  {
    created[id := created[id].(stopping := true)]
  }

  function NoteUnregister(created: seq<Station>, id: nat): seq<Station>
    requires id < |created|
  {
    created[id := created[id].(trace := created[id].trace + [Unregistered])]
  }

  /** The rest of DestroyStation, and of Shutdown up to StopWorkers. */
  function End(s: State): State
    requires |s.callers| >= STREAMS && CanContinue(s)
    requires InEnd(s.main)
  {
    match s.main
    case Ending(id) => s.(created := StopStation(s.created, id), main := Awaiting(id))
    case Awaiting(id) =>
      s.(created := NoteUnregister(s.created, id), callers := s.callers[MAIN := InHand(UnregisterJob(id))],
         main := Outside)
    case Halting(ids, next) =>
      if next < |ids| then s.(created := StopStation(s.created, ids[next]), main := Halting(ids, next + 1))
      else s.(main := HaltJoining(ids))
    case HaltJoining(_) => s.(main := Stopping(Halt))
  }

  function ContinueMain(s: State): State
    requires |s.callers| >= STREAMS && CanContinue(s)
  {
    if s.main.Outside? then s
    else if InStop(s.main) then Stop(s)
    else if InStart(s.main) then Start(s)
    else End(s)
  }

  function WakeAll(workers: seq<Worker>): seq<Worker> {
    seq(|workers|, i requires 0 <= i < |workers| =>
      if workers[i].pc == Parked then workers[i].(pc := Wanting) else workers[i])
  }

  function Destroying(s: State, id: int): State {
    if id in s.stations && id >= 0 then s.(stations := s.stations - {id}, main := Ending(id)) else s
  }

  function ShuttingDown(s: State): State {
    if !s.running then s else s.(stations := map[], main := Halting(LiveIds(s, 0), 0))
  }

  /** A call that only hands in a job. */
  function Asking(s: State, act: MainAct): State
    requires |s.callers| >= STREAMS
  {
    match act
    case Command(id, kind, command, flagKey, resultKey) =>
      if id in s.stations then Issue(s, MAIN, Job(kind, id, 0, command, flagKey, resultKey)) else s
    case RefreshStatus(id) => if id in s.stations then s.(callers := s.callers[MAIN := Found(id)]) else s
    case ListStations =>
      if s.configured then Issue(s, MAIN, Job(JobListStations, INVALID_STATION, 0, [], [], [])) else s
    case UpdateStation(id) =>
      if id in s.stations then s.(callers := s.callers[MAIN := InHand(Job(JobRegister, id, 0, [], [], []))]) else s
    case _ => s
  }

  function Mainly(s: State, act: MainAct): State
    requires |s.callers| >= STREAMS && MainMay(s, act)
  {
    match act
    case Configure(config, tls) => Configuring(s, config, tls)
    case Reload(config, tls) => Reloading(s, config, tls)
    case Create(slug) => Creating(s, slug)
    case Destroy(id) => Destroying(s, id)
    case Shutdown => ShuttingDown(s)
    case Tick => s.(delivered := s.delivered + s.dispatch, dispatch := [])
    case Continue => ContinueMain(s)
    case _ => Asking(s, act)
  }

  // ----- the poller -----

  datatype PollerAct = Poll(id: int) | PollerExit

  predicate PollerMay(s: State, act: PollerAct)
    requires |s.callers| >= STREAMS
  {
    && s.poller && s.callers[POLLER] == Resting
    && match act
       case Poll(id) => id in s.stations
       case PollerExit => !s.running
  }

  function PollOnce(s: State, act: PollerAct): State
    requires |s.callers| >= STREAMS && PollerMay(s, act)
  {
    match act
    case Poll(id) => s.(callers := s.callers[POLLER := Found(id)])
    case PollerExit => s.(poller := false)
  }

  // ----- stream threads -----

  /** `Go` is a step that leaves the thread no choice; the others are the outcomes of a call. */
  datatype StreamAct = Go | Answered(reply: Reply) | Opened | OpenRefused(code: bytes, message: bytes)
                   | Heard(event: Value) | Quiet | Dropped

  predicate StreamMay(s: State, id: nat, act: StreamAct) {
    && id < |s.created| && |s.callers| == STREAMS + |s.created|
    && var pc := s.created[id].pc;
       match act
       case Go =>
         && !pc.Registering? && !pc.Opening? && !pc.Reading? && !pc.Ended?
         && (pc.Refreshing? || pc.Refreshed? ==> s.callers[STREAMS + id] == Resting)
       case Answered(_) => pc.Registering?
       case Opened => pc.Opening?
       case OpenRefused(_, _) => pc.Opening?
       case Heard(_) => pc.Reading?
       case Quiet => pc.Reading?
       case Dropped => pc.Reading?
  }

  /** What a step of a stream thread does: to its station, an event it pushes, and whether it starts to hand in a
      status job. */
  datatype Move = Move(st: Station, out: seq<PawnEvent>, asks: bool)

  function Quietly(st: Station, pc: StreamPc): Move {
    Move(st.(pc := pc), [], false)
  }

  function Noting(st: Station, pc: StreamPc, act: Act): Move {
    Move(st.(pc := pc, trace := st.trace + [act]), [], false)
  }

  function Pushing(st: Station, pc: StreamPc, event: PawnEvent): Move {
    Move(st.(pc := pc, trace := st.trace + [Pushed(event)]), [event], false)
  }

  /** A step without a call in it. `halted`: the station stops or the manager does; `listed`: the station is still
      in the registry; `client`: a connection built from the settings as they are. */
  function Going(id: nat, st: Station, halted: bool, listed: bool, client: Client): Move {
    match st.pc
    case Starting => Move(st.(clients := st.clients + [client], pc := Checking(false, MIN_BACKOFF)), [], false)
    case Checking(reconnect, backoff) =>
      if halted then Quietly(st, Ended) else Noting(st, Registering(reconnect, backoff), SentRegister(reconnect))
    case Announcing(reconnect, event) =>
      Pushing(st, Refreshing(if reconnect then Settling(MIN_BACKOFF) else LoopTop(MIN_BACKOFF)), event)
    case Refusing(event) => Pushing(st, Ended, event)
    case Retrying(reconnect, backoff) => Quietly(st, Checking(reconnect, NextBackoff(backoff)))
    case Refreshing(after) =>
      Move(st.(pc := if listed then Refreshed(after) else after, trace := st.trace + [Asked(listed)]), [], listed)
    case Refreshed(after) => Quietly(st, after)
    case Settling(backoff) => Noting(st, LoopTop(NextBackoff(backoff)), Settled(backoff))
    case LoopTop(backoff) => if halted then Quietly(st, Ended) else Noting(st, Opening(backoff), SentSubscribe)
    case OpenFailed(backoff) => Quietly(st, LoopTop(NextBackoff(backoff)))
    case Handling(todo, refresh) =>
      if todo != [] then Pushing(st, Handling(todo[1..], refresh), todo[0])
      else Quietly(st, if refresh then Refreshing(Reading) else Reading)
    case Closing => Quietly(st, if halted then Ended else Checking(true, MIN_BACKOFF))
    case _ => Move(st, [], false)
  }

  function Moving(id: nat, st: Station, halted: bool, listed: bool, client: Client, act: StreamAct): Move
    requires act.Answered? ==> st.pc.Registering?
    requires act.OpenRefused? ==> st.pc.Opening?
  {
    match act
    case Go => Going(id, st, halted, listed, client)
    case Answered(reply) =>
      (match reply
       case Success(resp) =>
         Noting(st, Announcing(st.pc.reconnect, RegisteredEvent(id, resp, st.pc.reconnect)),
                Registered(st.pc.reconnect, resp))
       case Failure(code, message) =>
         if Permanent(code) then Noting(st, Refusing(ErrorEvent(id, code, message)), Refused(code, message))
         else Noting(st, Retrying(st.pc.reconnect, st.pc.backoff), RegisterFailed(st.pc.backoff)))
    case Opened => Noting(st, Reading, Subscribed)
    case OpenRefused(code, message) =>
      if st.stopping then Noting(st, Ended, Abandoned)
      else if Permanent(code) then Noting(st, Refusing(ErrorEvent(id, code, message)), Refused(code, message))
      else Noting(st, OpenFailed(st.pc.backoff), SubscribeFailed(st.pc.backoff))
    case Heard(event) => Noting(st, Handling(CallbackFor(id, event), ChangesTrack(event)), Received(event))
    case Quiet => if halted then Noting(st, Closing, Disconnected) else Move(st, [], false)
    case Dropped => Noting(st, Closing, Disconnected)
  }

  function MoveOf(s: State, id: nat, act: StreamAct): Move
    requires StreamMay(s, id, act)
  {
    var st := s.created[id];
    Moving(id, st, st.stopping || !s.running, id in s.stations, ClientOf(s.config, s.url), act)
  }

  function StreamStep(s: State, id: nat, act: StreamAct): State
    requires StreamMay(s, id, act)
  {
    var move := MoveOf(s, id, act);
    s.(created := s.created[id := move.st],
       dispatch := s.dispatch + move.out, pushed := s.pushed + Signed(ByStream(id), move.out),
       callers := if move.asks then s.callers[STREAMS + id := Found(id)] else s.callers)
  }

  // ----- runs -----

  datatype Step =
    | WorkerDoes(w: nat, wact: WorkerAct)
    | CallerDoes(c: nat, cact: CallerAct)
    | MainDoes(mact: MainAct)
    | PollerDoes(pact: PollerAct)
    | StreamDoes(id: nat, sact: StreamAct)

  predicate Enabled(s: State, step: Step) {
    match step
    case WorkerDoes(w, act) => WorkerMay(s, w, act)
    case CallerDoes(c, act) => CallerMay(s, c, act)
    case MainDoes(act) => |s.callers| >= STREAMS && MainMay(s, act)
    case PollerDoes(act) => |s.callers| >= STREAMS && PollerMay(s, act)
    case StreamDoes(id, act) => StreamMay(s, id, act)
  }

  function Do(s: State, step: Step): State
    requires Enabled(s, step)
  {
    match step
    case WorkerDoes(w, act) => Work(s, w, act)
    case CallerDoes(c, act) => Call(s, c, act)
    case MainDoes(act) => Mainly(s, act)
    case PollerDoes(act) => PollOnce(s, act)
    case StreamDoes(id, act) => StreamStep(s, id, act)
  }

  ghost predicate Next(s: State, t: State) {
    exists step :: Enabled(s, step) && t == Do(s, step)
  }

  /** Any interleaving of any length. */
  ghost predicate Run(states: seq<State>) {
    && states != []
    && Init(states[0])
    && (forall i | 0 <= i < |states| - 1 :: Next(states[i], states[i + 1]))
  }
}
