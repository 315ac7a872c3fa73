/**
 The manager's own methods, as one thread runs them: each section under a mutex, the main thread's operations
 from one call boundary to the next, and what a worker or a stream thread does with what it was sent. How the
 sections of several threads interleave is the subject of `Managers`, whose definitions these are proved against.
 */
module ManagerClass {
  import opened Bytes
  import opened Json
  import opened Urls
  import opened StatusCache
  import S = Stations
  import M = Managers
  import R = ManagerRequests

  /** One entry of ListStations: every station the token covers, whoever created it. */
  datatype Summary = Summary(slug: bytes, name: bytes, logoUrl: bytes, listeners: int)

  function SummaryOf(item: Value): Summary {
    Summary(Str(item, Ascii("slug"), []), Str(item, Ascii("name"), []), Str(item, Ascii("logoUrl"), []),
            Int(item, Ascii("listenerCount"), 0))
  }

  datatype ReloadResult = ReloadFailed | ReloadApplied | ReloadPartial

  class Manager {
    const tls: bool
    var running: bool
    var configured: bool
    var config: M.Config
    var url: Url
    var serverVersion: bytes
    var stations: map<int, S.Station>
    var streamClients: map<int, M.Client>
    var listedStations: seq<Summary>
    var nextStation: nat
    var nextRequest: nat
    var jobs: seq<M.Job>
    var workerClients: seq<M.Client>
    var dispatch: seq<PawnEvent>

    /** What holds whenever the main thread is not inside a call: while there are stations the pool and every
        stream are connected as the settings say. */
    ghost predicate Valid()
      reads this`running, this`configured, this`config, this`url, this`stations, this`streamClients, this`nextStation
      reads this`workerClients, stations.Values`slug
    {
      && (forall id | id in stations :: 0 <= id < nextStation)
      && (forall a, b | a in stations && b in stations && a != b ::
            stations[a] != stations[b] && stations[a].slug != stations[b].slug)
      && configured == running && (stations != map[] ==> running)
      && (running ==> M.Usable(config, tls) && ParseUrl(config.url) == Accepted(url))
      && workerClients == (if running then M.Pool(config, url) else [])
      && streamClients.Keys == stations.Keys
      && (forall id | id in streamClients :: streamClients[id] == M.ClientOf(config, url))
    }

    constructor (tls: bool)
      ensures Valid() && this.tls == tls && stations == map[] && !configured && jobs == [] && dispatch == []
      ensures nextStation == nextRequest == 0 && listedStations == []
      ensures config == M.Config(Ascii("http://127.0.0.1:9090"), [], 5000, 10000, 2) && url == M.NO_URL
    {
      this.tls := tls;
      running, configured, config, url, serverVersion := false, false, M.DEFAULT_CONFIG, M.NO_URL, [];
      stations, streamClients, nextStation, nextRequest := map[], map[], 0, 0;
      jobs, workerClients, dispatch, listedStations := [], [], [], [];
    }

    // ----- the pool -----

    /** Taken while no station exists, and only then if they are usable; else nothing changes. */
    method Configure(newConfig: M.Config) returns (ok: bool)
      requires Valid()
      modifies this
      ensures Valid() && stations == old(stations)
      ensures ok <==> old(stations) == map[] && M.Usable(newConfig, tls)
      ensures M.Usable(newConfig, tls) <==>
                newConfig.token != [] && ParseUrl(newConfig.url).Accepted?
                && (ParseUrl(newConfig.url).url.scheme == Ascii("https") ==> tls)
      ensures ok ==> configured && config == newConfig && ParseUrl(newConfig.url) == Accepted(url)
      ensures ok ==> |workerClients| == if newConfig.workers < 1 then 1 else newConfig.workers
      ensures ok ==> forall c | c in workerClients :: c == M.Client(url, newConfig.token, newConfig.timeout)
      ensures ok ==>
                jobs == (if old(running) then [] else old(jobs))
                        + [M.Job(M.JobServerInfo, INVALID_STATION, 0, [], [], [])]
      ensures !ok ==> Unchanged()
      ensures unchanged(`nextStation) && unchanged(`nextRequest) && unchanged(`dispatch) && unchanged(`streamClients)
    {
      hide ParseUrl, Secure, M.PoolSize, M.ClientOf, M.Pool;
      UsableSettings(newConfig);
      if stations != map[] {
        return false;
      }
      if newConfig.token == [] {
        return false;
      }
      var parsed := Parse(newConfig.url);
      if parsed == Rejected {
        return false;
      }
      if Secure(parsed.url) && !tls {
        return false;
      }
      assert M.Usable(newConfig, tls);
      hide M.Usable;
      config, url, configured := newConfig, parsed.url, true;

      StopWorkers();

      running := true;
      StartWorkers();
      Enqueue(M.SERVER_INFO_JOB);
      return true;
    }

    /** What Configure asks of the settings. */
    lemma UsableSettings(newConfig: M.Config)
      ensures M.Usable(newConfig, tls) <==>
                newConfig.token != [] && ParseUrl(newConfig.url).Accepted?
                && (ParseUrl(newConfig.url).url.scheme == Ascii("https") ==> tls)
    {
      hide ParseUrl;
      assert HTTPS == Ascii("https");
    }

    method StartWorkers()
      requires workerClients == []
      modifies this`workerClients
      ensures workerClients == M.Pool(config, url)
      ensures |workerClients| == if config.workers < 1 then 1 else config.workers
      ensures forall c | c in workerClients :: c == M.Client(url, config.token, config.timeout)
    {
      var count := if config.workers < 1 then 1 else config.workers;
      ghost var pool := M.Pool(config, url);
      for i := 0 to count
        invariant i <= |pool| && workerClients == pool[..i]
      {
        workerClients := workerClients + [M.ClientOf(config, url)];
      }
    }

    /** The poll interval is always taken; everything else as by Configure, or left as it is while stations exist. */
    method Reload(newConfig: M.Config) returns (result: ReloadResult)
      requires Valid()
      modifies this
      ensures Valid() && stations == old(stations)
      ensures unchanged(`nextStation) && unchanged(`nextRequest) && unchanged(`dispatch) && unchanged(`streamClients)
      ensures !M.ConnectionDiffers(old(config), newConfig) <==>
                newConfig == old(config).(pollInterval := newConfig.pollInterval)
      ensures old(running) && !M.ConnectionDiffers(old(config), newConfig) ==>
                unchanged(`url) && unchanged(`workerClients)
      ensures old(running) && !M.ConnectionDiffers(old(config), newConfig) ==> result == ReloadApplied
      ensures old(running) && M.ConnectionDiffers(old(config), newConfig) && old(stations) != map[] ==>
                result == ReloadPartial
      ensures (!old(running) || M.ConnectionDiffers(old(config), newConfig)) && old(stations) == map[]
              ==> result == if M.Usable(newConfig, tls) then ReloadApplied else ReloadFailed
      ensures result == ReloadApplied ==> config == newConfig && configured
      ensures result == ReloadApplied ==>
                jobs == if old(running) && !M.ConnectionDiffers(old(config), newConfig) then old(jobs)
                        else (if old(running) then [] else old(jobs))
                             + [M.Job(M.JobServerInfo, INVALID_STATION, 0, [], [], [])]
      ensures result != ReloadApplied ==>
                && config == (if old(running) then old(config).(pollInterval := newConfig.pollInterval)
                              else old(config))
                && unchanged(`url) && unchanged(`jobs) && unchanged(`workerClients) && unchanged(`configured)
                && unchanged(`running)
    {
      if !running {
        var ok := Configure(newConfig);
        return if ok then ReloadApplied else ReloadFailed;
      }
      var connectionDiffers := M.ConnectionDiffers(config, newConfig);
      var stationsExist := stations != map[];
      config := config.(pollInterval := newConfig.pollInterval);
      assert Valid();
      if !connectionDiffers {
        return ReloadApplied;
      }
      if stationsExist {
        return ReloadPartial;
      }
      var ok := Configure(newConfig);
      return if ok then ReloadApplied else ReloadFailed;
    }

    twostate predicate Unchanged()
      reads this
    {
      unchanged(this)
    }

    method StopWorkers()
      modifies this
      ensures !running
      ensures if old(running) then jobs == [] && workerClients == []
              else jobs == old(jobs) && workerClients == old(workerClients)
      ensures unchanged(`configured) && unchanged(`config) && unchanged(`url) && unchanged(`serverVersion)
      ensures unchanged(`stations) && unchanged(`streamClients) && unchanged(`nextStation) && unchanged(`nextRequest)
      ensures unchanged(`dispatch) && unchanged(`listedStations)
    {
      if !running {
        return;
      }
      running := false;
      jobs := [];
      workerClients := [];
    }

    /** Every station is told to stop and leaves the registry; the pool stops; nothing is unregistered. */
    method Shutdown()
      requires Valid()
      modifies this, stations.Values`stopping
      ensures Valid() && !configured
      ensures old(running) ==> stations == map[] && jobs == []
      ensures old(running) ==> forall id | id in old(stations) :: old(stations)[id].stopping
      ensures !old(running) ==> Unchanged()
      ensures unchanged(`config) && unchanged(`url) && unchanged(`nextStation) && unchanged(`nextRequest)
      ensures unchanged(`dispatch)
    {
      hide ParseUrl, M.Usable, M.PoolSize, M.ClientOf;
      if !running {
        return;
      }
      var stopped := stations;
      stations, streamClients := map[], map[];
      for id := 0 to nextStation
        invariant forall k | k in stopped && k < id :: stopped[k].stopping
        modifies stopped.Values`stopping
      {
        if id in stopped {
          assert stopped[id] in stopped.Values;
          stopped[id].stopping := true;
        }
      }
      StopWorkers();
      configured := false;
    }

    // ----- queues -----

    method Enqueue(job: M.Job)
      modifies this`jobs
      ensures jobs == old(jobs) + [job]
    {
      jobs := jobs + [job];
    }

    /** The front of the queue, as a worker takes it. */
    method TakeJob() returns (job: M.Job)
      requires jobs != []
      modifies this`jobs
      ensures [job] + jobs == old(jobs)
    {
      job := jobs[0];
      jobs := jobs[1..];
    }

    /** The ids are 1, 2, 3 and so on. */
    method IssueRequest() returns (request: nat)
      modifies this`nextRequest
      ensures request == nextRequest == old(nextRequest) + 1
    {
      nextRequest := nextRequest + 1;
      request := nextRequest;
    }

    method Push(event: PawnEvent)
      modifies this`dispatch
      ensures dispatch == old(dispatch) + [event]
    {
      dispatch := dispatch + [event];
    }

    /** Everything waiting, in order, and nothing is left. */
    method Tick() returns (out: seq<PawnEvent>)
      modifies this`dispatch
      ensures out == old(dispatch) && dispatch == []
    {
      out := [];
      while dispatch != []
        invariant out + dispatch == old(dispatch)
        decreases |dispatch|
      {
        out := out + [dispatch[0]];
        dispatch := dispatch[1..];
      }
    }

    // ----- stations -----

    /** The station with this slug, if there is one. The registry is gone through in the order of the ids. */
    method FindStationBySlug(slug: bytes) returns (found: int)
      requires Valid()
      ensures found == INVALID_STATION <==> forall id | id in stations :: stations[id].slug != slug
      ensures found != INVALID_STATION ==> found in stations && stations[found].slug == slug
    {
      for id := 0 to nextStation
        invariant forall k | k in stations && k < id :: stations[k].slug != slug
      {
        if id in stations && stations[id].slug == slug {
          return id;
        }
      }
      return INVALID_STATION;
    }

    /** A new id, never given out before, unless the slug is empty or taken or no server is configured. */
    method CreateStation(slug: bytes, name: bytes, description: bytes, lowQueueThreshold: int, logoUrl: bytes)
      returns (id: int)
      requires Valid()
      modifies this`stations, this`streamClients, this`nextStation
      ensures Valid()
      ensures id == INVALID_STATION <==>
                slug == [] || !configured || exists k :: k in old(stations) && old(stations[k].slug) == slug
      ensures id == INVALID_STATION ==> unchanged(this)
      ensures id != INVALID_STATION ==>
                streamClients == old(streamClients)[id := M.Client(url, config.token, config.timeout)]
      ensures id != INVALID_STATION ==>
                && id == old(nextStation) && nextStation == id + 1 && id !in old(stations)
                && id in stations && stations == old(stations)[id := stations[id]] && fresh(stations[id])
                && stations[id].slug == slug && stations[id].name == (if name == [] then slug else name)
                && stations[id].description == description && stations[id].lowQueueThreshold == lowQueueThreshold
                && stations[id].logoUrl == logoUrl && stations[id].metadata == map[] && !stations[id].stopping
    {
      hide ParseUrl, M.Usable, M.PoolSize;
      if slug == [] {
        return INVALID_STATION;
      }
      if !configured {
        return INVALID_STATION;
      }
      var taken := FindStationBySlug(slug);
      if taken != INVALID_STATION {
        return INVALID_STATION;
      }
      var station := new S.Station(slug, name, description, lowQueueThreshold, logoUrl);
      id := nextStation;
      nextStation := nextStation + 1;
      stations := stations[id := station];
      streamClients := streamClients[id := M.ClientOf(config, url)];
    }

    /** Gone from the registry, its thread told to stop, and one UnregisterStation enqueued. */
    method DestroyStation(id: int) returns (ok: bool)
      requires Valid()
      modifies this`stations, this`streamClients, this`jobs, (if id in stations then {stations[id]} else {})`stopping
      ensures Valid()
      ensures ok == (id in old(stations))
      ensures stations == old(stations) - {id} && streamClients == old(streamClients) - {id}
      ensures jobs == old(jobs) + if ok then [M.Job(M.JobUnregister, id, 0, [], [], [])] else []
      ensures ok ==> old(stations)[id].stopping
    {
      hide ParseUrl, M.Usable, M.PoolSize, M.ClientOf;
      if id !in stations {
        return false;
      }
      var station := stations[id];
      stations, streamClients := stations - {id}, streamClients - {id};
      station.stopping := true;
      Enqueue(M.UnregisterJob(id));
      return true;
    }

    method SetMetadata(id: int, key: bytes, value: bytes) returns (ok: bool)
      requires Valid()
      modifies (if id in stations then {stations[id]} else {})`metadata
      ensures Valid() && ok == (id in stations)
      ensures ok ==> stations[id].metadata == (if value == [] then old(stations[id].metadata) - {key}
                                               else old(stations[id].metadata)[key := value])
    {
      if id !in stations {
        return false;
      }
      stations[id].SetMetadata(key, value);
      return true;
    }

    method ClearMetadata(id: int) returns (ok: bool)
      requires Valid()
      modifies (if id in stations then {stations[id]} else {})`metadata
      ensures Valid() && ok == (id in stations)
      ensures ok ==> stations[id].metadata == map[]
    {
      if id !in stations {
        return false;
      }
      stations[id].metadata := map[];
      return true;
    }

    /** The fields are replaced at once; a worker is to send them. */
    method UpdateStation(id: int, name: bytes, description: bytes, lowQueueThreshold: int, logoUrl: bytes)
      returns (ok: bool)
      requires Valid()
      modifies this`jobs
      modifies (if id in stations then {stations[id]} else {})`name,
               (if id in stations then {stations[id]} else {})`description
      modifies (if id in stations then {stations[id]} else {})`lowQueueThreshold,
               (if id in stations then {stations[id]} else {})`logoUrl
      ensures Valid() && ok == (id in stations)
      ensures jobs == old(jobs) + if ok then [M.Job(M.JobRegister, id, 0, [], [], [])] else []
      ensures ok ==>
                && stations[id].name == (if name == [] then stations[id].slug else name)
                && stations[id].description == description && stations[id].lowQueueThreshold == lowQueueThreshold
                && stations[id].logoUrl == logoUrl
    {
      hide ParseUrl, M.Usable, M.PoolSize, M.ClientOf;
      if id !in stations {
        return false;
      }
      stations[id].Update(name, description, lowQueueThreshold, logoUrl);
      Enqueue(M.Job(M.JobRegister, id, 0, [], [], []));
      return true;
    }

    // ----- requests -----

    /** The next id; 0 and nothing else when the station is unknown. */
    method EnqueueCommand(id: int, kind: M.JobKind, command: bytes, flagKey: bytes, resultKey: bytes)
      returns (request: nat)
      requires kind == M.JobCommand || kind == M.JobQueueTrack
      modifies this`nextRequest, this`jobs
      ensures if id in stations then
                request == old(nextRequest) + 1 == nextRequest
                && jobs == old(jobs) + [M.Job(kind, id, request, command, flagKey, resultKey)]
              else request == 0 && unchanged(this)
    {
      if id !in stations {
        return 0;
      }
      request := IssueRequest();
      Enqueue(M.Job(kind, id, request, command, flagKey, resultKey));
    }

    method RefreshStatus(id: int) returns (request: nat)
      modifies this`nextRequest, this`jobs
      ensures if id in stations then
                request == old(nextRequest) + 1 == nextRequest
                && jobs == old(jobs) + [M.Job(M.JobStatus, id, request, [], [], [])]
              else request == 0 && unchanged(this)
    {
      if id !in stations {
        return 0;
      }
      request := IssueRequest();
      Enqueue(M.StatusJob(id).(request := request));
    }

    method RequestStationList() returns (request: nat)
      modifies this`nextRequest, this`jobs
      ensures if configured then
                request == old(nextRequest) + 1 == nextRequest
                && jobs == old(jobs) + [M.Job(M.JobListStations, INVALID_STATION, request, [], [], [])]
              else request == 0 && unchanged(this)
    {
      if !configured {
        return 0;
      }
      request := IssueRequest();
      Enqueue(M.Job(M.JobListStations, INVALID_STATION, request, [], [], []));
    }

    // ----- what comes back -----

    method ApplyStatus(station: S.Station, resp: Value, now: nat)
      modifies station`status
      ensures station.status == Snapshot(resp, now)
    {
      var items := ElemsOf(Get(resp, Ascii("queue")));
      var queue: seq<TrackInfo> := [];
      for i := 0 to |items|
        invariant queue == Tracks(items)[..i]
      {
        queue := queue + [TrackOf(items[i])];
      }
      var past := ElemsOf(Get(resp, Ascii("history")));
      var history: seq<TrackInfo> := [];
      for i := 0 to |past|
        invariant history == Finished(past)[..i]
      {
        history := history + [TrackOf(past[i]).(reason := Str(past[i], Ascii("reason"), []))];
      }
      var current := Get(resp, Ascii("currentTrack"));
      station.status := StationStatus(
        true, Str(resp, Ascii("name"), []), Truth(resp, Ascii("isRegistered"), false),
        Truth(resp, Ascii("isSilence"), false), Truth(resp, Ascii("isPaused"), false),
        Int(resp, Ascii("listenerCount"), 0), Int(resp, Ascii("uptimeSeconds"), 0),
        Int(resp, Ascii("currentTrackElapsedSeconds"), 0), current != Null,
        if current != Null then TrackOf(current) else NO_TRACK, queue, |queue|, history,
        Str(resp, Ascii("logoUrl"), []), now);
    }

    static method Listed(items: seq<Value>) returns (listed: seq<Summary>)
      ensures |listed| == |items| && forall i | 0 <= i < |items| :: listed[i] == SummaryOf(items[i])
    {
      listed := [];
      for i := 0 to |items|
        invariant |listed| == i && forall k | 0 <= k < i :: listed[k] == SummaryOf(items[k])
      {
        listed := listed + [SummaryOf(items[i])];
      }
    }

    /** The error event of a failed call. */
    static function Failed(job: M.Job, reply: M.Reply): PawnEvent
      requires reply.Failure?
    {
      PawnEvent(EvError, job.station, 0, false, [], [], [], [], [], reply.code, reply.message, 0, 0)
    }

    /** What a worker does with a job it called: exactly the events that answer it, in order. */
    method Finish(job: M.Job, station: S.Station?, reply: M.Reply, now: nat)
      requires job.kind != M.JobRegister
      requires job.kind == M.JobStatus ==> station != null
      modifies this`dispatch, this`serverVersion, this`listedStations
      modifies (if station != null then {station} else {})`status
      ensures dispatch == old(dispatch) + M.Answers(job, reply)
      ensures M.Answerable(job) ==>
                |dispatch| > |old(dispatch)| && R.Reports(dispatch[|old(dispatch)|], job, reply)
                && dispatch[|old(dispatch)| + 1..] == if reply.Failure? then [Failed(job, reply)] else []
      ensures job.kind == M.JobUnregister ==> dispatch == old(dispatch)
      ensures reply.Failure? && !M.Answerable(job) && job.kind != M.JobUnregister ==>
                dispatch == old(dispatch) + [Failed(job, reply)]
      ensures job.kind == M.JobStatus && reply.Success? ==> station.status == Snapshot(reply.resp, now)
      ensures station != null && !(job.kind == M.JobStatus && reply.Success?) ==> unchanged(station)
      ensures serverVersion ==
              if job.kind == M.JobServerInfo && reply.Success? then Str(reply.resp, Ascii("version"), [])
              else old(serverVersion)
      ensures if job.kind == M.JobListStations && reply.Success? then
                var items := ElemsOf(Get(reply.resp, Ascii("stations")));
                |listedStations| == |items|
                && forall i | 0 <= i < |items| ::
                     listedStations[i] == Summary(Str(items[i], Ascii("slug"), []), Str(items[i], Ascii("name"), []),
                                                  Str(items[i], Ascii("logoUrl"), []),
                                                  Int(items[i], Ascii("listenerCount"), 0))
              else listedStations == old(listedStations)
    {
      hide R.Reports;
      if M.Answerable(job) {
        R.AnswersReport(job, reply);
      } else {
        R.OthersReport(job, reply);
      }
      var event := BLANK.(station := job.station, request := job.request);
      match reply
      case Failure(code, message) =>
        if job.kind == M.JobUnregister {
          return;
        }
        if job.kind == M.JobCommand || job.kind == M.JobQueueTrack {
          Push(event.(kind := EvCommandResult, text := job.command));
        }
        Push(ErrorEvent(job.station, code, message));
      case Success(resp) =>
        match job.kind {
          case JobQueueTrack =>
            Push(event.(kind := EvTrackQueued, queueId := Str(resp, Ascii("queueId"), []),
                        text := Str(resp, Ascii("status"), []), num2 := Int(resp, Ascii("queuePosition"), 0),
                        flag := true));
          case JobCommand =>
            var flag := job.flagKey == [] || Truth(resp, job.flagKey, false);
            var result := if job.resultKey == [] then (if flag then 1 else 0) else Int(resp, job.resultKey, 0);
            Push(event.(kind := EvCommandResult, text := job.command, flag := flag, num1 := result));
          case JobStatus =>
            ApplyStatus(station, resp, now);
            Push(event.(kind := EvStatusUpdate));
          case JobListStations =>
            var listed := Listed(ElemsOf(Get(resp, Ascii("stations"))));
            listedStations := listed;
            Push(BLANK.(kind := EvStationList, request := job.request, num1 := |listed|));
          case JobServerInfo =>
            serverVersion := Str(resp, Ascii("version"), []);
            Push(BLANK.(kind := EvServerInfo, text := serverVersion));
          case JobUnregister =>
          case JobRegister =>
        }
    }

    /** What a stream thread does with an event: the cache is adjusted, at most one callback pushed, and a status
        job handed in when the track changed and the station is still there. */
    method DispatchStationEvent(id: nat, station: S.Station, event: Value, now: nat)
      modifies this`dispatch, this`nextRequest, this`jobs, station`status
      ensures station.status == Folded(old(station.status), event, now)
      ensures dispatch == old(dispatch) + CallbackFor(id, event)
      ensures if ChangesTrack(event) && id in stations then
                nextRequest == old(nextRequest) + 1
                && jobs == old(jobs) + [M.Job(M.JobStatus, id, nextRequest, [], [], [])]
              else nextRequest == old(nextRequest) && jobs == old(jobs)
    {
      hide Ascii, TypeOf, Get, Str, Int, TrackOf, QueueLengthIn, ListenersIn, StartedTrack;
      var ev := BLANK.(station := id);
      match TypeOf(event)
      case TrackStarted =>
        var track := StartedTrack(event);
        station.status := station.status.(
          valid := true, hasCurrent := true, current := track, isSilence := false, isPaused := false, elapsed := 0,
          updatedAt := now);
        Push(ev.(kind := EvTrackStarted, queueId := track.queueId, location := track.location, title := track.title,
                 artist := track.artist, coverArt := track.coverArt, num1 := track.duration));
        var _ := RefreshStatus(id);
      case TrackEnded =>
        var p := Get(event, Ascii("trackEnded"));
        station.status := station.status.(hasCurrent := false, current := NO_TRACK, elapsed := 0);
        Push(ev.(kind := EvTrackEnded, queueId := Str(p, Ascii("queueId"), []), text := Str(p, Ascii("reason"), [])));
        var _ := RefreshStatus(id);
      case QueueUpdated =>
        station.status := station.status.(queueLength := QueueLengthIn(event));
        Push(ev.(kind := EvQueueUpdated, num1 := QueueLengthIn(event)));
      case ListenerCountChanged =>
        station.status := station.status.(listeners := ListenersIn(event));
        Push(ev.(kind := EvListenerCount, num1 := ListenersIn(event)));
      case QueueLow =>
        var p := Get(event, Ascii("queueLow"));
        Push(ev.(kind := EvQueueLow, num1 := Int(p, Ascii("queueLength"), 0), num2 := Int(p, Ascii("threshold"), 0)));
      case SilenceStarted =>
        station.status := station.status.(isSilence := true);
        Push(ev.(kind := EvSilenceStarted));
      case SilenceEnded =>
        station.status := station.status.(isSilence := false);
        Push(ev.(kind := EvSilenceEnded));
      case ErrorReported =>
        var p := Get(event, Ascii("error"));
        Push(ev.(kind := EvError, text := Str(p, Ascii("code"), []), text2 := Str(p, Ascii("message"), [])));
      case Unhandled =>
    }

    /** The cache as of now: carried forward while a track plays, and the station's own copy left as it is. */
    method GetStatus(id: int, now: nat) returns (out: StationStatus)
      requires id in stations ==> stations[id].status.updatedAt <= now
      ensures out == if id in stations then Extrapolated(stations[id].status, now) else NO_STATUS
      ensures id in stations ==>
                forall k: nat | WholeSeconds(now - stations[id].status.updatedAt, k) ::
                  SeenAfter(stations[id].status, k, out)
    {
      out := NO_STATUS;
      if id in stations {
        out := stations[id].status;
        if out.valid && out.hasCurrent && !out.isPaused {
          var secs := (now - out.updatedAt) / 1000;
          if secs > 0 {
            out := out.(elapsed := out.elapsed + secs);
            if out.current.duration > 0 && out.elapsed > out.current.duration {
              out := out.(elapsed := out.current.duration);
            }
          }
        }
      }
    }
  }
}
