/**
 The registry of stations and the connection settings over every run, and what follows for one station from its
 creation to the end of its thread.
 */
module ManagerRegistry {
  import opened Bytes
  import opened StatusCache
  import opened Urls
  import opened Managers
  import opened ManagerPool
  import opened ManagerRequests
  import opened ManagerStreams

  // ----- the registry -----

  /** Taken out of the registry by DestroyStation, its thread not joined yet. */
  predicate BeingDestroyed(main: MainPc, id: nat) {
    (main.Ending? || main.Awaiting?) && main.id == id
  }

  predicate BeingHalted(main: MainPc, id: nat) {
    (main.Halting? || main.HaltJoining?) && id in main.ids
  }

  /** In the registry, or being taken down by the main thread. */
  predicate Held(s: State, id: nat) {
    id in s.stations || BeingDestroyed(s.main, id) || BeingHalted(s.main, id)
  }

  predicate Reconfiguring(main: MainPc) {
    main.Stopping? || PoolStops(main) || main.Booting? || main.Spawning?
  }

  /** The registry and what the main thread is about. */
  predicate ListingFits(s: State) {
    && (forall id | id in s.stations :: 0 <= id < |s.created| && s.stations[id] == s.created[id].slug)
    && (forall a, b | a in s.stations && b in s.stations && a != b :: s.stations[a] != s.stations[b])
    && (forall id | id in s.stations :: !BeingDestroyed(s.main, id))
    && (Reconfiguring(s.main) || s.main.Halting? || s.main.HaltJoining? ==> s.stations == map[])
    && (s.main.Ending? || s.main.Awaiting? ==> s.main.id < |s.created|)
    && (s.main.Halting? || s.main.HaltJoining? ==> forall id | id in s.main.ids :: id < |s.created|)
  }

  /** One station: a thread that has not ended is of a station that is held; a station that is registered or being
      destroyed has not been unregistered. */
  predicate LifeOf(s: State, id: nat)
    requires id < |s.created|
  {
    && (s.created[id].pc != Ended ==> Held(s, id))
    && (id in s.stations || BeingDestroyed(s.main, id) ==> Unregistered !in s.created[id].trace)
    && StationFits(id, s.created[id])
  }

  predicate RegistryFits(s: State) {
    ListingFits(s) && forall id | 0 <= id < |s.created| :: LifeOf(s, id)
  }

  lemma {:induction false} LiveIdsAreAll(s: State, from: nat, id: nat)
    requires from <= |s.created|
    ensures id in LiveIds(s, from) <==> from <= id < |s.created| && id in s.stations
    decreases |s.created| - from
  {
    if from < |s.created| {
      LiveIdsAreAll(s, from + 1, id);
    }
  }

  /** Steps that leave the registry and the stations alone. */
  lemma SameRegistryFits(s: State, t: State)
    requires RegistryFits(s) && t.created == s.created && t.stations == s.stations
    requires t.main == s.main
          || (s.main == Outside && (t.main.Stopping? || t.main.Booting?) && s.stations == map[])
    ensures RegistryFits(t)
  {
    hide StationFits;
    forall id | 0 <= id < |s.created| ensures LifeOf(t, id) {
      assert LifeOf(s, id);
    }
  }

  lemma WorkerLeavesRegistry(s: State, w: nat, act: WorkerAct)
    requires WorkerMay(s, w, act)
    ensures var t := Work(s, w, act);
            && t.running == s.running && t.configured == s.configured && t.config == s.config && t.url == s.url
            && t.stations == s.stations && t.created == s.created && t.main == s.main
            && |t.workers| == |s.workers|
            && forall i | 0 <= i < |s.workers| :: t.workers[i].client == s.workers[i].client
  {
    hide Answers, RegisteredEvent, ErrorEvent, StationStops, Permanent, JobsMutexFree;
  }

  lemma CallerLeavesRegistry(s: State, c: nat, act: CallerAct)
    requires CallerMay(s, c, act)
    ensures var t := Call(s, c, act);
            && t.running == s.running && t.configured == s.configured && t.config == s.config && t.url == s.url
            && t.stations == s.stations && t.created == s.created && t.main == s.main
            && |t.workers| == |s.workers|
            && forall i | 0 <= i < |s.workers| :: t.workers[i].client == s.workers[i].client
  {
  }

  lemma StreamKeepsRegistry(s: State, id: nat, act: StreamAct)
    requires RegistryFits(s) && StreamMay(s, id, act)
    ensures RegistryFits(StreamStep(s, id, act))
  {
    hide Moving, StationFits, StreamMay;
    var t := StreamStep(s, id, act);
    StreamKeepsListing(s, id, act);
    forall i | 0 <= i < |t.created| ensures LifeOf(t, i) {
      assert LifeOf(s, i);
      if i == id {
        StreamKeepsLife(s, id, act);
      } else {
        OthersKeepLife(s, id, act, i);
      }
    }
  }

  lemma StreamKeepsListing(s: State, id: nat, act: StreamAct)
    requires ListingFits(s) && StreamMay(s, id, act)
    ensures ListingFits(StreamStep(s, id, act)) && |StreamStep(s, id, act).created| == |s.created| && id < |s.created|
  {
    hide Moving;
    var st := s.created[id];
    MoveKeepsIdentity(id, st, st.stopping || !s.running, id in s.stations, ClientOf(s.config, s.url), act);
  }

  lemma StreamKeepsLife(s: State, id: nat, act: StreamAct)
    requires StreamMay(s, id, act) && LifeOf(s, id)
    ensures LifeOf(StreamStep(s, id, act), id)
  {
    hide Moving, StreamStep, StationFits, BeingHalted, BeingDestroyed;
    var st := s.created[id];
    var halted, listed, client := st.stopping || !s.running, id in s.stations, ClientOf(s.config, s.url);
    StreamMoves(s, id, act);
    MoveKeepsFit(id, st, halted, listed, client, act);
    MoveSealed(id, st, halted, listed, client, act);
  }

  lemma OthersKeepLife(s: State, id: nat, act: StreamAct, i: nat)
    requires StreamMay(s, id, act) && i < |s.created| && i != id && LifeOf(s, i)
    ensures LifeOf(StreamStep(s, id, act), i)
  {
    hide Moving, StationFits;
  }

  lemma CreateKeepsRegistry(s: State, slug: bytes)
    requires RegistryFits(s) && s.main == Outside
    ensures RegistryFits(Creating(s, slug))
  {
    hide StationFits;
    if CreateAccepts(s, slug) {
      var t := Creating(s, slug);
      NewStationFits(|s.created|, t.created[|s.created|]);
      assert |s.created| !in s.stations;
      forall id | 0 <= id < |s.created| ensures LifeOf(t, id) {
        assert LifeOf(s, id);
      }
    }
  }

  lemma EndKeepsListing(s: State)
    requires |s.callers| >= STREAMS && ListingFits(s) && CanContinue(s)
    requires InEnd(s.main)
    ensures ListingFits(End(s)) && |End(s).created| == |s.created|
  {
  }

  lemma EndKeepsLife(s: State, id: nat)
    requires |s.callers| >= STREAMS && CanContinue(s) && id < |s.created| && LifeOf(s, id)
    requires InEnd(s.main)
    requires s.main.Awaiting? ==> s.main.id !in s.stations
    ensures |End(s).created| == |s.created| && LifeOf(End(s), id)
  {
    hide StationFits;
    if s.main.Awaiting? {
      AwaitingKeepsLife(s, id);
    } else {
      StopKeepsFit(id, s.created[id]);
    }
  }

  lemma AwaitingKeepsLife(s: State, id: nat)
    requires |s.callers| >= STREAMS && CanContinue(s) && id < |s.created| && LifeOf(s, id)
    requires s.main.Awaiting? && s.main.id !in s.stations
    ensures |End(s).created| == |s.created| && LifeOf(End(s), id)
  {
    hide StationFits;
    if s.main.id == id {
      UnregisterKeepsFit(id, s.created[id]);
    }
  }

  lemma StopKeepsFit(id: nat, st: Station)
    requires StationFits(id, st)
    ensures StationFits(id, st.(stopping := true))
  {
  }

  lemma ShutdownKeepsRegistry(s: State)
    requires RegistryFits(s) && s.main == Outside
    ensures RegistryFits(ShuttingDown(s))
  {
    hide StationFits, LiveIds;
    if s.running {
      var t := ShuttingDown(s);
      forall id: nat | id in LiveIds(s, 0) ensures id < |s.created| {
        LiveIdsAreAll(s, 0, id);
      }
      forall id | 0 <= id < |s.created| ensures LifeOf(t, id) {
        LiveIdsAreAll(s, 0, id);
        assert LifeOf(s, id);
      }
    }
  }

  lemma DestroyKeepsRegistry(s: State, id: int)
    requires RegistryFits(s) && s.main == Outside
    ensures RegistryFits(Destroying(s, id))
  {
    hide StationFits;
    var t := Destroying(s, id);
    forall i | 0 <= i < |s.created| ensures LifeOf(t, i) {
      assert LifeOf(s, i);
    }
  }

  lemma ContinuingKeepsRegistry(s: State)
    requires |s.callers| >= STREAMS && RegistryFits(s) && CanContinue(s)
    ensures RegistryFits(ContinueMain(s))
  {
    hide StationFits, End, WakeAll;
    if InEnd(s.main) {
      hide LifeOf;
      EndKeepsListing(s);
      forall id | 0 <= id < |s.created| ensures LifeOf(End(s), id) {
        EndKeepsLife(s, id);
      }
    } else {
      var t := ContinueMain(s);
      forall id | 0 <= id < |s.created| ensures LifeOf(t, id) {
        assert LifeOf(s, id);
      }
    }
  }

  lemma MainKeepsRegistry(s: State, act: MainAct)
    requires |s.callers| >= STREAMS && RegistryFits(s) && MainMay(s, act)
    ensures RegistryFits(Mainly(s, act))
  {
    hide StationFits, ContinueMain, ShuttingDown, Destroying, Creating, Usable, ConnectionDiffers;
    match act
    case Create(slug) => CreateKeepsRegistry(s, slug);
    case Shutdown => ShutdownKeepsRegistry(s);
    case Destroy(id) => DestroyKeepsRegistry(s, id);
    case Continue => ContinuingKeepsRegistry(s);
    case _ =>
      hide RegistryFits;
      OthersLeaveRegistry(s, act);
      SameRegistryFits(s, Mainly(s, act));
  }

  lemma OthersLeaveRegistry(s: State, act: MainAct)
    requires |s.callers| >= STREAMS && MainMay(s, act)
    requires !act.Create? && !act.Shutdown? && !act.Destroy? && !act.Continue?
    ensures var t := Mainly(s, act);
            && t.created == s.created && t.stations == s.stations
            && (t.main == s.main || (s.main == Outside && (t.main.Stopping? || t.main.Booting?) && s.stations == map[]))
  {
    hide Usable, ConnectionDiffers;
  }

  lemma StepKeepsRegistry(s: State, step: Step)
    requires PoolShape(s) && RegistryFits(s) && Enabled(s, step)
    ensures RegistryFits(Do(s, step))
  {
    hide Work, Call, Mainly, StreamStep, StreamMay, WorkerMay, CallerMay, MainMay, StationFits, PoolShape, RegistryFits;
    var t := Do(s, step);
    match step
    case WorkerDoes(w, act) =>
      WorkerLeavesRegistry(s, w, act);
      SameRegistryFits(s, t);
    case CallerDoes(c, act) =>
      CallerLeavesRegistry(s, c, act);
      SameRegistryFits(s, t);
    case MainDoes(act) => MainKeepsRegistry(s, act);
    case PollerDoes(act) => SameRegistryFits(s, t);
    case StreamDoes(id, act) => StreamKeepsRegistry(s, id, act);
  }

  // ----- the settings -----

  predicate Restarting(main: MainPc) {
    (main.Stopping? || PoolStops(main)) && main.purpose == Restart
  }

  /** The pool is as large as the settings say and its connections are built from them, except while it is being
      replaced. */
  predicate PoolConnected(s: State) {
    && (s.stations != map[] ==> s.running)
    && (s.configured ==> ParseUrl(s.config.url) == Accepted(s.url) && s.config.token != [])
    && (!PoolStops(s.main) && !s.main.Booting? ==> s.configured == s.running)
    && (s.main.Booting? || Restarting(s.main) ==> s.configured)
    && (s.running && !Reconfiguring(s.main) ==> |s.workers| == PoolSize(s.config))
    && (s.main.Spawning? ==> |s.workers| + s.main.left == PoolSize(s.config))
    && (s.running && !s.main.Stopping? ==>
          forall i | 0 <= i < |s.workers| :: s.workers[i].client == ClientOf(s.config, s.url))
  }

  predicate StationConnected(s: State, id: nat)
    requires id < |s.created|
  {
    && !ConnectionDiffers(s.created[id].made, s.config)
    && forall client | client in s.created[id].clients :: client == ClientOf(s.config, s.url)
  }

  /** Whatever station is held was made with the settings there are, and connects with them. */
  predicate StationsConnected(s: State) {
    forall id | 0 <= id < |s.created| && Held(s, id) :: StationConnected(s, id)
  }

  predicate SettingsFit(s: State) {
    PoolConnected(s) && StationsConnected(s)
  }

  lemma SameSettingsFit(s: State, t: State)
    requires SettingsFit(s)
    requires t.running == s.running && t.configured == s.configured && t.config == s.config && t.url == s.url
    requires t.stations == s.stations && t.created == s.created && t.main == s.main
    requires |t.workers| == |s.workers| && forall i | 0 <= i < |s.workers| :: t.workers[i].client == s.workers[i].client
    ensures SettingsFit(t)
  {
    hide PoolSize, ConnectionDiffers;
    forall id | 0 <= id < |s.created| && Held(t, id) ensures StationConnected(t, id) {
      assert Held(s, id);
    }
  }

  lemma MoveConnects(id: nat, st: Station, halted: bool, listed: bool, client: Client, act: StreamAct)
    requires Fitting(st, act)
    ensures var later := Moving(id, st, halted, listed, client, act).st;
            later.made == st.made && (later.clients == st.clients || later.clients == st.clients + [client])
  {
    hide CallbackFor, Permanent, TypeOf, RegisteredEvent, ErrorEvent;
  }

  lemma StreamKeepsSettings(s: State, id: nat, act: StreamAct)
    requires SettingsFit(s) && StreamMay(s, id, act)
    ensures SettingsFit(StreamStep(s, id, act))
  {
    hide PoolSize, ConnectionDiffers, Moving;
    var st := s.created[id];
    var t := StreamStep(s, id, act);
    MoveConnects(id, st, st.stopping || !s.running, id in s.stations, ClientOf(s.config, s.url), act);
    forall i | 0 <= i < |t.created| && Held(t, i) ensures StationConnected(t, i) {
      assert Held(s, i) && StationConnected(s, i);
    }
  }

  /** When the settings stay, a station stays connected as long as it is held. */
  lemma StillConnected(s: State, t: State)
    requires StationsConnected(s) && |t.created| == |s.created| && t.url == s.url
    requires !ConnectionDiffers(s.config, t.config)
    requires forall id | 0 <= id < |s.created| :: Held(t, id) ==> Held(s, id)
    requires forall id | 0 <= id < |s.created| ::
               t.created[id].made == s.created[id].made && t.created[id].clients == s.created[id].clients
    ensures StationsConnected(t)
  {
    forall id | 0 <= id < |t.created| && Held(t, id) ensures StationConnected(t, id) {
      assert Held(s, id) && StationConnected(s, id);
    }
  }

  lemma CreateKeepsSettings(s: State, slug: bytes)
    requires SettingsFit(s) && s.main == Outside
    ensures SettingsFit(Creating(s, slug))
  {
    hide PoolSize, ParseUrl, ClientOf;
    var t := Creating(s, slug);
    assert CreateAccepts(s, slug) ==> s.configured;
    hide CreateAccepts;
    forall i | 0 <= i < |t.created| && Held(t, i) ensures StationConnected(t, i) {
      hide PoolConnected;
      if i < |s.created| {
        assert Held(s, i) && StationConnected(s, i);
      }
    }
  }

  lemma NobodyIsHeld(s: State)
    requires s.stations == map[] && (s.main == Outside || Reconfiguring(s.main))
    ensures StationsConnected(s)
  {
    hide StationConnected;
    assert forall id: nat :: !Held(s, id);
  }

  lemma ConfigureKeepsSettings(s: State, config: Config, tls: bool)
    requires SettingsFit(s) && s.main == Outside
    ensures SettingsFit(Configuring(s, config, tls))
  {
    hide PoolSize, StationsConnected;
    if ConfigureAccepts(s, config, tls) {
      NobodyIsHeld(Configuring(s, config, tls));
    }
  }

  lemma PollingKeepsSettings(s: State, interval: int)
    requires SettingsFit(s) && s.main == Outside
    ensures SettingsFit(s.(config := s.config.(pollInterval := interval)))
  {
    StillConnected(s, s.(config := s.config.(pollInterval := interval)));
  }

  /** Reload touches the connection settings only by configuring anew, while there is no station. */
  lemma ReloadKeepsSettings(s: State, config: Config, tls: bool)
    requires SettingsFit(s) && s.main == Outside
    ensures SettingsFit(Reloading(s, config, tls))
  {
    hide SettingsFit, Configuring;
    ConfigureKeepsSettings(s, config, tls);
    PollingKeepsSettings(s, config.pollInterval);
    ConfigureKeepsSettings(s.(config := s.config.(pollInterval := config.pollInterval)), config, tls);
  }

  lemma EndKeepsSettings(s: State)
    requires |s.callers| >= STREAMS && SettingsFit(s) && CanContinue(s) && ListingFits(s) && LifeFits(s)
    requires InEnd(s.main)
    ensures SettingsFit(End(s))
  {
    hide PoolSize, StationsConnected, End;
    EndLeavesSettings(s);
    StillConnected(s, End(s));
  }

  lemma EndLeavesSettings(s: State)
    requires |s.callers| >= STREAMS && CanContinue(s)
    requires InEnd(s.main)
    ensures var t := End(s);
            && t.running == s.running && t.configured == s.configured && t.config == s.config && t.url == s.url
            && t.stations == s.stations && t.workers == s.workers && |t.created| == |s.created|
            && !PoolStops(t.main) && !t.main.Booting? && !t.main.Spawning? && !Restarting(t.main)
            && (Reconfiguring(t.main) ==> t.main.Stopping?)
            && (t.main.Stopping? || t.main == Outside || t.main.Awaiting? || t.main.Halting? || t.main.HaltJoining?)
    ensures forall id | 0 <= id < |s.created| :: Held(End(s), id) ==> Held(s, id)
    ensures forall id | 0 <= id < |s.created| ::
              End(s).created[id].made == s.created[id].made && End(s).created[id].clients == s.created[id].clients
  {
    forall id | 0 <= id < |s.created|
      ensures |End(s).created| == |s.created| && (Held(End(s), id) ==> Held(s, id))
      ensures End(s).created[id].made == s.created[id].made && End(s).created[id].clients == s.created[id].clients
    {
      EndHoldsNoMore(s, id);
      EndKeepsMade(s, id);
    }
  }

  lemma EndHoldsNoMore(s: State, id: nat)
    requires |s.callers| >= STREAMS && CanContinue(s) && id < |s.created|
    requires InEnd(s.main)
    ensures Held(End(s), id) ==> Held(s, id)
  {
    hide StopStation, NoteUnregister;
  }

  lemma EndKeepsMade(s: State, id: nat)
    requires |s.callers| >= STREAMS && CanContinue(s) && id < |s.created|
    requires InEnd(s.main)
    ensures |End(s).created| == |s.created|
    ensures End(s).created[id].made == s.created[id].made && End(s).created[id].clients == s.created[id].clients
  {
  }

  lemma ContinuingKeepsSettings(s: State)
    requires |s.callers| >= STREAMS && SettingsFit(s) && CanContinue(s) && ListingFits(s) && LifeFits(s)
    ensures SettingsFit(ContinueMain(s))
  {
    hide Stop, Start, End, SettingsFit, ListingFits, LifeFits;
    if InStop(s.main) {
      StopKeepsSettings(s);
    } else if InStart(s.main) {
      StartKeepsSettings(s);
    } else if s.main != Outside {
      EndKeepsSettings(s);
    }
  }

  lemma StopKeepsSettings(s: State)
    requires SettingsFit(s) && ListingFits(s) && LifeFits(s) && InStop(s.main)
    ensures SettingsFit(Stop(s))
  {
    hide PoolConnected, StationsConnected;
    StopKeepsPool(s);
    NobodyIsHeld(Stop(s));
  }

  lemma StopKeepsPool(s: State)
    requires PoolConnected(s) && LifeFits(s) && InStop(s.main) && s.stations == map[]
    ensures PoolConnected(Stop(s))
  {
    hide PoolSize;
    match s.main
    case Waking(_) =>
      assert forall i | 0 <= i < |s.workers| :: WakeAll(s.workers)[i].client == s.workers[i].client;
    case _ =>
      hide WakeAll;
  }

  lemma StartKeepsSettings(s: State)
    requires |s.callers| >= STREAMS && SettingsFit(s) && ListingFits(s) && LifeFits(s) && InStart(s.main)
    ensures SettingsFit(Start(s))
  {
    hide PoolConnected, StationsConnected;
    StartConnectsPool(s);
    NobodyIsHeld(Start(s));
  }

  lemma StartConnectsPool(s: State)
    requires |s.callers| >= STREAMS && PoolConnected(s) && LifeFits(s) && InStart(s.main)
    requires s.stations == map[]
    ensures PoolConnected(Start(s))
  {
    hide Start, PoolSize, PoolConnected;
    if s.main.Booting? {
      BootingConnectsPool(s);
    } else {
      SpawningConnectsPool(s);
    }
  }

  lemma BootingConnectsPool(s: State)
    requires |s.callers| >= STREAMS && PoolConnected(s) && LifeFits(s) && s.main.Booting?
    requires s.stations == map[]
    ensures PoolConnected(Start(s))
  {
    hide PoolSize;
    assert s.workers == [];
  }

  lemma SpawningConnectsPool(s: State)
    requires |s.callers| >= STREAMS && PoolConnected(s) && LifeFits(s) && s.main.Spawning?
    requires s.stations == map[]
    ensures PoolConnected(Start(s))
  {
    hide PoolSize, ParseUrl, ClientOf;
    var t := Start(s);
    assert forall i | 0 <= i < |s.workers| :: t.workers[i] == s.workers[i];
  }

  lemma ShutdownKeepsSettings(s: State)
    requires SettingsFit(s) && s.main == Outside
    ensures SettingsFit(ShuttingDown(s))
  {
    hide PoolSize, StationsConnected, LiveIds, Held;
    forall id: nat | id < |s.created| ensures Held(ShuttingDown(s), id) ==> Held(s, id) {
      ShutdownHoldsNoMore(s, id);
    }
    StillConnected(s, ShuttingDown(s));
  }

  lemma ShutdownHoldsNoMore(s: State, id: nat)
    requires id < |s.created|
    ensures Held(ShuttingDown(s), id) ==> Held(s, id)
  {
    hide LiveIds;
    LiveIdsAreAll(s, 0, id);
  }

  lemma DestroyKeepsSettings(s: State, id: int)
    requires SettingsFit(s) && s.main == Outside
    ensures SettingsFit(Destroying(s, id))
  {
    hide PoolSize, StationsConnected;
    StillConnected(s, Destroying(s, id));
  }

  lemma AskingLeavesSettings(s: State, act: MainAct)
    requires |s.callers| >= STREAMS
    ensures var t := Asking(s, act);
            && t.running == s.running && t.configured == s.configured && t.config == s.config && t.url == s.url
            && t.stations == s.stations && t.created == s.created && t.main == s.main && t.workers == s.workers
  {
  }

  lemma MainKeepsSettings(s: State, act: MainAct)
    requires |s.callers| >= STREAMS && SettingsFit(s) && RegistryFits(s) && LifeFits(s) && MainMay(s, act)
    ensures SettingsFit(Mainly(s, act))
  {
    hide ContinueMain, Configuring, Reloading, Creating, Destroying, ShuttingDown, Asking, LifeOf, SettingsFit;
    match act
    case Create(slug) => CreateKeepsSettings(s, slug);
    case Configure(config, tls) => ConfigureKeepsSettings(s, config, tls);
    case Reload(config, tls) => ReloadKeepsSettings(s, config, tls);
    case Continue => ContinuingKeepsSettings(s);
    case Shutdown => ShutdownKeepsSettings(s);
    case Destroy(id) => DestroyKeepsSettings(s, id);
    case _ =>
      AskingLeavesSettings(s, act);
      SameSettingsFit(s, Mainly(s, act));
  }

  lemma StepKeepsSettings(s: State, step: Step)
    requires PoolShape(s) && RegistryFits(s) && SettingsFit(s) && Enabled(s, step)
    ensures SettingsFit(Do(s, step))
  {
    hide Work, Call, Mainly, StreamStep, StreamMay, WorkerMay, CallerMay, MainMay, StationFits, RegistryFits,
         SettingsFit;
    var t := Do(s, step);
    match step
    case WorkerDoes(w, act) =>
      WorkerLeavesRegistry(s, w, act);
      SameSettingsFit(s, t);
    case CallerDoes(c, act) =>
      CallerLeavesRegistry(s, c, act);
      SameSettingsFit(s, t);
    case MainDoes(act) => MainKeepsSettings(s, act);
    case PollerDoes(act) => SameSettingsFit(s, t);
    case StreamDoes(id, act) => StreamKeepsSettings(s, id, act);
  }
}
