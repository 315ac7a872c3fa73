/**
 The manager's methods are those operations, and the sections that other threads run are its other methods. An object
 that mirrors the last state of a run mirrors, after a call of its main thread, the last state of a longer run that goes
 on by the operation called; and it follows any step of another thread.
 */
module ManagerSteps {
  import opened Bytes
  import opened Json
  import opened StatusCache
  import opened Urls
  import opened Managers
  import opened ManagerOperations
  import S = Stations
  import C = ManagerClass

  ghost function ViewOf(m: C.Manager): View
    reads m, m.stations.Values
  {
    View(m.running, m.configured, m.config, m.url, SlugsOf(m), StopsOf(m), m.streamClients, m.nextStation,
         m.nextRequest, m.jobs, m.dispatch, m.workerClients)
  }

  ghost function SlugsOf(m: C.Manager): map<int, bytes>
    reads m`stations, m.stations.Values`slug
  {
    map id | id in m.stations :: m.stations[id].slug
  }

  ghost function StopsOf(m: C.Manager): map<int, bool>
    reads m`stations, m.stations.Values`stopping
  {
    map id | id in m.stations :: m.stations[id].stopping
  }

  ghost predicate Mirrors(m: C.Manager, run: seq<State>)
    reads m, m.stations.Values
  {
    m.Valid() && Shows(run, ViewOf(m), Outside, Resting)
  }

  lemma SlugTaken(m: C.Manager, slug: bytes)
    ensures slug in SlugsOf(m).Values <==> exists k :: k in m.stations && m.stations[k].slug == slug
  {
    if slug in SlugsOf(m).Values {
      var k := KeyWith(SlugsOf(m), slug);
      assert m.stations[k].slug == slug;
    }
    if k :| k in m.stations && m.stations[k].slug == slug {
      assert SlugsOf(m)[k] in SlugsOf(m).Values;
    }
  }

  lemma KeyWith<K, V>(m: map<K, V>, v: V) returns (k: K)
    requires v in m.Values
    ensures k in m && m[k] == v
  {
    k :| k in m && m[k] == v;
  }

  lemma OthersAreOthers(m: C.Manager, id: int)
    requires m.Valid()
    ensures id in m.stations ==> forall k | k in m.stations && k != id :: m.stations[k] != m.stations[id]
    ensures m.streamClients.Keys == m.stations.Keys
  {
  }

  method Begin(tls: bool) returns (m: C.Manager, ghost run: seq<State>)
    ensures fresh(m) && Mirrors(m, run) && |run| == 1 && m.tls == tls
  {
    hide m.Valid, Shows;
    m := new C.Manager(tls);
    run := StartsShown(ViewOf(m));
  }

  method Tick(m: C.Manager, ghost run: seq<State>) returns (out: seq<PawnEvent>, ghost later: seq<State>)
    requires Mirrors(m, run)
    modifies m`dispatch
    ensures Mirrors(m, later) && GoesOn(run, MainDoes(MainAct.Tick), later)
    ensures Last(later).delivered == Last(run).delivered + out
  {
    hide m.Valid, Shows, SlugsOf, StopsOf, GoesOn;
    later := Ticks(run, ViewOf(m));
    out := m.Tick();
  }

  method EnqueueCommand(m: C.Manager, id: int, kind: JobKind, command: bytes, flagKey: bytes, resultKey: bytes,
                        ghost run: seq<State>)
    returns (request: nat, ghost later: seq<State>)
    requires Mirrors(m, run) && (kind == JobCommand || kind == JobQueueTrack)
    requires id in m.stations ==> JobsMutexFree(Last(run))
    modifies m`nextRequest, m`jobs
    ensures Mirrors(m, later) && GoesOn(run, MainDoes(Command(id, kind, command, flagKey, resultKey)), later)
    ensures Last(later).issued ==
            Last(run).issued + if request > 0 then [Job(kind, id, request, command, flagKey, resultKey)] else []
  {
    hide m.Valid, Shows, GoesOn, StopsOf;
    ghost var v := ViewOf(m);
    request := m.EnqueueCommand(id, kind, command, flagKey, resultKey);
    later := Commands(run, v, id, Job(kind, id, m.nextRequest, command, flagKey, resultKey));
  }

  method RefreshStatus(m: C.Manager, id: int, ghost run: seq<State>) returns (request: nat, ghost later: seq<State>)
    requires Mirrors(m, run)
    requires id in m.stations ==> JobsMutexFree(Last(run))
    modifies m`nextRequest, m`jobs
    ensures Mirrors(m, later) && GoesOn(run, MainDoes(MainAct.RefreshStatus(id)), later)
    ensures Last(later).issued ==
            Last(run).issued + if request > 0 then [StatusJob(id).(request := request)] else []
  {
    hide m.Valid, Shows, GoesOn, StopsOf;
    later := RefreshesStatus(run, ViewOf(m), id);
    request := m.RefreshStatus(id);
  }

  method RequestStationList(m: C.Manager, ghost run: seq<State>) returns (request: nat, ghost later: seq<State>)
    requires Mirrors(m, run)
    requires m.configured ==> JobsMutexFree(Last(run))
    modifies m`nextRequest, m`jobs
    ensures Mirrors(m, later) && GoesOn(run, MainDoes(ListStations), later)
    ensures Last(later).issued ==
            Last(run).issued
            + if request > 0 then [Job(JobListStations, INVALID_STATION, request, [], [], [])] else []
  {
    hide m.Valid, Shows, GoesOn, StopsOf, SlugsOf;
    later := ListsStations(run, ViewOf(m));
    request := m.RequestStationList();
  }

  method UpdateStation(m: C.Manager, id: int, name: bytes, description: bytes, lowQueueThreshold: int, logoUrl: bytes,
                       ghost run: seq<State>)
    returns (ok: bool, ghost later: seq<State>)
    requires Mirrors(m, run)
    requires id in m.stations ==> JobsMutexFree(Last(run))
    modifies m, m.stations.Values
    ensures Mirrors(m, later) && GoesOn(run, MainDoes(MainAct.UpdateStation(id)), later)
  {
    hide Shows, GoesOn, ParseUrl, Usable;
    ghost var v := ViewOf(m);
    later := Updates(run, v, id);
    ok := m.UpdateStation(id, name, description, lowQueueThreshold, logoUrl);
    assert SlugsOf(m) == v.slugs && StopsOf(m) == v.stops;
    assert ViewOf(m) == Updated(v, id);
  }

  method CreateStation(m: C.Manager, slug: bytes, name: bytes, description: bytes, lowQueueThreshold: int,
                       logoUrl: bytes, ghost run: seq<State>)
    returns (id: int, ghost later: seq<State>)
    requires Mirrors(m, run)
    modifies m
    ensures Mirrors(m, later) && GoesOn(run, MainDoes(Create(slug)), later)
  {
    hide Shows, GoesOn, ParseUrl, Usable;
    ghost var v := ViewOf(m);
    later := Creates(run, v, slug);
    SlugTaken(m, slug);
    id := m.CreateStation(slug, name, description, lowQueueThreshold, logoUrl);
    if id == INVALID_STATION {
      assert SlugsOf(m) == v.slugs && StopsOf(m) == v.stops;
    } else {
      assert SlugsOf(m) == v.slugs[id := slug];
      assert StopsOf(m) == v.stops[id := false];
    }
    assert ViewOf(m) == Created(v, slug);
  }

  method DestroyStation(m: C.Manager, id: int, ghost run: seq<State>) returns (ok: bool, ghost later: seq<State>)
    requires Mirrors(m, run)
    requires id in m.stations ==> JobsMutexFree(Last(run))
    requires id in m.stations && id >= 0 ==> ThreadAtRest(Last(run), id)
    modifies m, m.stations.Values`stopping
    ensures Mirrors(m, later) && GoesOn(run, MainDoes(MainAct.Destroy(id)), later)
  {
    hide Shows, GoesOn, m.Valid, Destroyed;
    ghost var v := ViewOf(m);
    later := Destroys(run, v, id);
    ok := DestroyView(m, id, v);
    DestroyedIs(v, id);
  }

  method DestroyView(m: C.Manager, id: int, ghost v: View) returns (ok: bool)
    requires m.Valid() && v == ViewOf(m)
    modifies m`stations, m`streamClients, m`jobs, m.stations.Values`stopping
    ensures m.Valid()
    ensures ViewOf(m) == v.(slugs := v.slugs - {id}, stops := v.stops - {id}, clients := v.clients - {id},
                            jobs := if id in v.slugs then v.jobs + [UnregisterJob(id)] else v.jobs)
    ensures v.stops.Keys == v.slugs.Keys && v.clients.Keys == v.slugs.Keys
  {
    hide m.Valid;
    OthersAreOthers(m, id);
    ok := m.DestroyStation(id);
    assert SlugsOf(m) == v.slugs - {id};
    assert StopsOf(m) == v.stops - {id} by {
      assert forall k | k in m.stations && id in old(m.stations) :: m.stations[k] != old(m.stations)[id];
    }
  }

  method Configure(m: C.Manager, config: Config, ghost run: seq<State>) returns (ok: bool, ghost later: seq<State>)
    requires Mirrors(m, run)
    requires m.running && m.stations == map[] ==> PoolAtRest(Last(run))
    modifies m
    ensures Mirrors(m, later) && GoesOn(run, MainDoes(MainAct.Configure(config, m.tls)), later)
  {
    hide Shows, GoesOn, ParseUrl;
    ghost var v := ViewOf(m);
    later := Configures(run, v, config, m.tls);
    ok := m.Configure(config);
    assert ViewOf(m) == if ok then Renewed(v, config) else v;
  }

  method Reload(m: C.Manager, config: Config, ghost run: seq<State>)
    returns (result: C.ReloadResult, ghost later: seq<State>)
    requires Mirrors(m, run)
    requires m.running && m.stations == map[] ==> PoolAtRest(Last(run))
    modifies m
    ensures Mirrors(m, later) && GoesOn(run, MainDoes(MainAct.Reload(config, m.tls)), later)
  {
    hide Shows, GoesOn, ParseUrl;
    ghost var v := ViewOf(m);
    later := Reloads(run, v, config, m.tls);
    result := m.Reload(config);
    assert SlugsOf(m) == v.slugs && StopsOf(m) == v.stops && v.slugs.Keys == m.stations.Keys;
    assert ViewOf(m) == Reloaded(v, config, m.tls);
  }

  method Shutdown(m: C.Manager, ghost run: seq<State>) returns (ghost later: seq<State>)
    requires Mirrors(m, run)
    requires m.running ==> PoolAtRest(Last(run)) && forall id: nat | id in m.stations :: ThreadAtRest(Last(run), id)
    modifies m, m.stations.Values`stopping
    ensures Mirrors(m, later) && GoesOn(run, MainDoes(MainAct.Shutdown), later)
  {
    hide Shows, GoesOn, ParseUrl;
    ghost var v := ViewOf(m);
    later := Halts(run, v);
    m.Shutdown();
    assert SlugsOf(m) == (if v.running then map[] else v.slugs);
    assert StopsOf(m) == (if v.running then map[] else v.stops);
    assert m.streamClients == Halted(v).clients;
    assert ViewOf(m) == Halted(v);
  }

  // ----- what other threads run -----

  /** A step of another thread, whichever it is and however far the others are: the object has a part in it when a
      job is taken or queued, an event pushed, or an id given out. */
  method Follow(m: C.Manager, seen: Seen, ghost step: Step, ghost run: seq<State>) returns (ghost later: seq<State>)
    requires Mirrors(m, run) && Enabled(Last(run), step) && !step.MainDoes? && seen == SeenIn(Last(run), step)
    modifies m`jobs, m`dispatch, m`nextRequest
    ensures Mirrors(m, later) && later == run + [Do(Last(run), step)]
  {
    hide m.Valid, Shown, SlugsOf, StopsOf, Do;
    later := OthersShow(run, ViewOf(m), step);
    match seen
    case Nothing =>
    case Takes =>
      JobThere(run, ViewOf(m), step);
      var job := m.TakeJob();
    case Pushes(event) => m.Push(event);
    case Issues => var request := m.IssueRequest();
    case Enqueues(job) => m.Enqueue(job);
  }

  lemma JobThere(run: seq<State>, v: View, step: Step)
    requires Shows(run, v, Outside, Resting) && Enabled(Last(run), step) && SeenIn(Last(run), step) == Takes
    ensures v.jobs != []
  {
    hide Run, MoveOf, StreamMay, MainMay, PollerMay;
  }

  /** A worker's call returns; it goes on by that and by pushing what answers the job. */
  method Finish(m: C.Manager, w: nat, job: Job, station: S.Station?, reply: Reply, now: nat, ghost run: seq<State>)
    returns (ghost later: seq<State>)
    requires Mirrors(m, run) && w < |Last(run).workers| && Last(run).workers[w].pc == Calling(job)
    requires job.kind != JobRegister && (job.kind == JobStatus ==> station != null)
    modifies m`dispatch, m`serverVersion, m`listedStations, (if station != null then {station} else {})`status
    ensures Mirrors(m, later) && GoesOn(run, WorkerDoes(w, Return(reply)), later)
    ensures m.dispatch == old(m.dispatch) + Answers(job, reply)
  {
    hide m.Valid, SlugsOf, StopsOf, Answers, Shows, GoesOn, Answerable, Str, Get, Snapshot;
    ghost var v := ViewOf(m);
    later := WorkerAnswers(run, v, w, job, reply);
    m.Finish(job, station, reply, now);
  }

  /** A stream thread reads an event; it goes on by that, by pushing its callback, and by asking for the status. */
  method DispatchStationEvent(m: C.Manager, id: nat, station: S.Station, event: Value, now: nat, ghost run: seq<State>)
    returns (ghost later: seq<State>)
    requires Mirrors(m, run) && JobsMutexFree(Last(run))
    requires id < |Last(run).created| && Last(run).created[id].pc == Reading
    requires Last(run).callers[STREAMS + id] == Resting
    modifies m`dispatch, m`nextRequest, m`jobs, station`status
    ensures Mirrors(m, later) && GoesOn(run, StreamDoes(id, Heard(event)), later)
    ensures m.dispatch == old(m.dispatch) + CallbackFor(id, event)
  {
    hide m.Valid, StopsOf, CallbackFor, ChangesTrack, Folded, Shows, GoesOn;
    ghost var v := ViewOf(m);
    later := StreamHears(run, v, id, event);
    assert id in v.slugs <==> id in m.stations;
    hide SlugsOf;
    m.DispatchStationEvent(id, station, event, now);
  }
}
