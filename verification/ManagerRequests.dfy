/**
 Request ids over every run: each command and each queued track is in one place at any time, and is answered
 at most once, by an event that says what became of that very job.
 */
module ManagerRequests {
  import opened Bytes
  import opened Json
  import opened StatusCache
  import opened Managers
  import opened Counting
  import opened ManagerPool

  predicate IsAnswer(event: PawnEvent) {
    event.kind == EvTrackQueued || event.kind == EvCommandResult
  }

  /** `event` reports what became of `job` when its call returned `reply`. A command that failed, or a track that could
      not be queued, is reported by name and as false; a command by what the response has under its keys, if it has
      any; a track by what the response says about it. */
  predicate Reports(event: PawnEvent, job: Job, reply: Reply) {
    && Answerable(job)
    && event.request == job.request && event.station == job.station
    && match reply
       case Failure(_, _) =>
         event.kind == EvCommandResult && event.text == job.command && !event.flag && event.num1 == 0
       case Success(resp) =>
         if job.kind == JobQueueTrack then
           && event.kind == EvTrackQueued && event.flag
           && event.queueId == Str(resp, Ascii("queueId"), []) && event.text == Str(resp, Ascii("status"), [])
           && event.num2 == Int(resp, Ascii("queuePosition"), 0)
         else
           && event.kind == EvCommandResult && event.text == job.command
           && (event.flag <==> job.flagKey == [] || Truth(resp, job.flagKey, false))
           && (job.resultKey != [] ==> event.num1 == Int(resp, job.resultKey, 0))
           && (job.resultKey == [] ==> event.num1 == if event.flag then 1 else 0)
  }

  /** `event` reports on `job` what some call for it returned. */
  predicate ReportsReturn(returned: seq<(nat, Reply)>, event: PawnEvent, job: Job) {
    exists i | 0 <= i < |returned| :: returned[i].0 == event.request && Reports(event, job, returned[i].1)
  }

  // ----- whatever carries an id carries it rightly -----

  predicate JobTrue(issued: seq<Job>, job: Job) {
    && (Answerable(job) ==> job.request > 0)
    && (job.request > 0 ==> job.request <= |issued| && issued[job.request - 1] == job)
  }

  predicate EventTrue(issued: seq<Job>, returned: seq<(nat, Reply)>, event: PawnEvent) {
    IsAnswer(event) ==>
      0 < event.request <= |issued| && ReportsReturn(returned, event, issued[event.request - 1])
  }

  /** Only the first event of those a worker still has to push can be an answer. */
  predicate WorkerTrue(issued: seq<Job>, returned: seq<(nat, Reply)>, pc: WorkerPc) {
    match pc
    case Calling(job) => JobTrue(issued, job) && job.kind != JobRegister
    case Reregistering(job) => JobTrue(issued, job) && !Answerable(job)
    case Answering(_, todo) =>
      && (forall i | 0 <= i < |todo| :: EventTrue(issued, returned, todo[i]))
      && (forall i | 1 <= i < |todo| :: !IsAnswer(todo[i]))
    case _ => true
  }

  /** What a stream thread has yet to push. */
  function Pending(pc: StreamPc): seq<PawnEvent> {
    match pc
    case Announcing(_, event) => [event]
    case Refusing(event) => [event]
    case Handling(todo, _) => todo
    case _ => []
  }

  predicate StreamTrue(pc: StreamPc) {
    && (pc.Refreshing? || pc.Refreshed? ==> pc.after.LoopTop? || pc.after.Settling? || pc.after.Reading?)
    && forall event | event in Pending(pc) :: !IsAnswer(event)
  }

  predicate CallerTrue(issued: seq<Job>, c: Caller) {
    c.InHand? ==> JobTrue(issued, c.job)
  }

  predicate Numbered(issued: seq<Job>) {
    forall i | 0 <= i < |issued| :: issued[i].request == i + 1
  }

  predicate Truthful(s: State) {
    && |s.issued| == s.nextRequest && Numbered(s.issued)
    && (forall i | 0 <= i < |s.callers| :: CallerTrue(s.issued, s.callers[i]))
    && (forall i | 0 <= i < |s.jobs| :: JobTrue(s.issued, s.jobs[i]))
    && (forall i | 0 <= i < |s.workers| :: WorkerTrue(s.issued, s.returned, s.workers[i].pc))
    && (forall i | 0 <= i < |s.dispatch| :: EventTrue(s.issued, s.returned, s.dispatch[i]))
    && (forall i | 0 <= i < |s.delivered| :: EventTrue(s.issued, s.returned, s.delivered[i]))
    && (forall i | 0 <= i < |s.created| :: StreamTrue(s.created[i].pc))
  }

  /** What was true stays true: ids and returns are only added. */
  lemma EventStaysTrue(issued: seq<Job>, returned: seq<(nat, Reply)>, event: PawnEvent, issued': seq<Job>,
                       returned': seq<(nat, Reply)>)
    requires EventTrue(issued, returned, event) && issued <= issued' && returned <= returned'
    ensures EventTrue(issued', returned', event)
  {
    hide Reports;
    if IsAnswer(event) {
      var i :| 0 <= i < |returned| && returned[i].0 == event.request
               && Reports(event, issued[event.request - 1], returned[i].1);
      assert returned'[i] == returned[i];
    }
  }

  lemma WorkerStaysTrue(issued: seq<Job>, returned: seq<(nat, Reply)>, pc: WorkerPc, issued': seq<Job>,
                        returned': seq<(nat, Reply)>)
    requires WorkerTrue(issued, returned, pc) && issued <= issued' && returned <= returned'
    ensures WorkerTrue(issued', returned', pc)
  {
    hide EventTrue;
    if pc.Answering? {
      forall i | 0 <= i < |pc.todo| ensures EventTrue(issued', returned', pc.todo[i]) {
        EventStaysTrue(issued, returned, pc.todo[i], issued', returned');
      }
    }
  }

  /** The events of a job that a call returned for: the first tells of the reply. */
  lemma AnswersReport(job: Job, reply: Reply)
    requires Answerable(job)
    ensures var answers := Answers(job, reply); |answers| > 0 && IsAnswer(answers[0]) && Reports(answers[0], job, reply)
    ensures reply.Failure? ==>
              Answers(job, reply)[1..] ==
              [PawnEvent(EvError, job.station, 0, false, [], [], [], [], [], reply.code, reply.message, 0, 0)]
    ensures reply.Success? ==> |Answers(job, reply)| == 1
  {
  }

  /** And those of any other job: an error when it failed, unless it was to unregister a station; else what it was
      for. */
  lemma OthersReport(job: Job, reply: Reply)
    requires !Answerable(job) && job.kind != JobRegister
    ensures reply.Failure? ==>
              Answers(job, reply) ==
              if job.kind == JobUnregister then []
              else [PawnEvent(EvError, job.station, 0, false, [], [], [], [], [], reply.code, reply.message, 0, 0)]
    ensures reply.Success? ==>
              var blank := PawnEvent(EvError, -1, 0, false, [], [], [], [], [], [], [], 0, 0);
              Answers(job, reply) ==
              if job.kind == JobStatus then
                [blank.(kind := EvStatusUpdate, station := job.station, request := job.request)]
              else if job.kind == JobListStations then
                [blank.(kind := EvStationList, request := job.request,
                        num1 := |ElemsOf(Get(reply.resp, Ascii("stations")))|)]
              else if job.kind == JobServerInfo then
                [blank.(kind := EvServerInfo, text := Str(reply.resp, Ascii("version"), []))]
              else []
  {
    hide Ascii, Str, Get;
  }

  /** A worker that registers a station again announces it as no reconnect, or says why it gave up. */
  lemma ReregisteringTells(s: State, w: nat, reply: Reply)
    requires WorkerMay(s, w, Reregister(reply))
    ensures var job := s.workers[w].pc.job;
            Work(s, w, Reregister(reply)) ==
            InThread(s, w, Answering(job, match reply
              case Success(resp) =>
                [PawnEvent(EvStationRegistered, job.station, 0, Truth(resp, Ascii("reRegistered"), false), [], [], [],
                           [], [], Str(resp, Ascii("streamUrl"), []), [], 0, 0)]
              case Failure(code, message) =>
                [PawnEvent(EvError, job.station, 0, false, [], [], [], [], [], code, message, 0, 0)]))
  {
    hide StationStops, Ascii, Truth, Str;
  }

  lemma AnswersAreTrue(issued: seq<Job>, returned: seq<(nat, Reply)>, job: Job, reply: Reply)
    requires JobTrue(issued, job) && returned != [] && returned[|returned| - 1] == (job.request, reply)
    ensures WorkerTrue(issued, returned, Answering(job, Answers(job, reply)))
    ensures var answers := Answers(job, reply);
            Answerable(job) <==> answers != [] && IsAnswer(answers[0])
    ensures Answerable(job) ==> Answers(job, reply)[0].request == job.request
  {
  }

  lemma CallbacksAreNoAnswers(station: int, event: Value)
    ensures forall callback | callback in CallbackFor(station, event) :: !IsAnswer(callback)
  {
    hide CallbackFor, TypeOf;
    KindTells(station, event);
  }

  /** What a worker has before it and after it. */
  lemma WorkerPcKeepsTruth(s: State, w: nat, act: WorkerAct)
    requires Truthful(s) && WorkerMay(s, w, act)
    ensures var t := Work(s, w, act); WorkerTrue(s.issued, t.returned, t.workers[w].pc)
  {
    hide Answers, Reports, ReportsReturn, StationStops, StreamTrue, CallerTrue, Numbered, Permanent, Str, Truth;
    assert WorkerTrue(s.issued, s.returned, s.workers[w].pc);
    if act.Return? {
      AnswersAreTrue(s.issued, Work(s, w, act).returned, s.workers[w].pc.job, act.reply);
    }
  }

  lemma WorkerFrame(s: State, w: nat, act: WorkerAct)
    requires WorkerMay(s, w, act)
    ensures var t := Work(s, w, act);
            && t.nextRequest == s.nextRequest && t.issued == s.issued && t.callers == s.callers
            && t.created == s.created
            && t.delivered == s.delivered && t.dropped == s.dropped && s.returned <= t.returned
            && (!act.Return? ==> t.returned == s.returned)
            && t.jobs == (if act.Take? then s.jobs[1..] else s.jobs)
            && t.dispatch == s.dispatch + (if act.PushAnswer? then s.workers[w].pc.todo[..1] else [])
            && |t.workers| == |s.workers| && t.workers == s.workers[w := t.workers[w]]
  {
    hide Answers, RegisteredEvent, ErrorEvent, StationStops, Permanent, JobsMutexFree;
  }

  lemma WorkerKeepsTruth(s: State, w: nat, act: WorkerAct)
    requires Truthful(s) && WorkerMay(s, w, act)
    ensures Truthful(Work(s, w, act))
  {
    hide Work, EventTrue, JobTrue, StreamTrue, CallerTrue;
    WorkerFrame(s, w, act);
    WorkerPcKeepsTruth(s, w, act);
    assert WorkerTrue(s.issued, s.returned, s.workers[w].pc);
    StaysTruthful(s, s.issued, Work(s, w, act).returned);
  }

  /** Everything that was true of ids and events is when there are more ids and more returns. */
  lemma StaysTruthful(s: State, issued: seq<Job>, returned: seq<(nat, Reply)>)
    requires Truthful(s) && s.issued <= issued && s.returned <= returned
    ensures forall i | 0 <= i < |s.workers| :: WorkerTrue(issued, returned, s.workers[i].pc)
    ensures forall i | 0 <= i < |s.dispatch| :: EventTrue(issued, returned, s.dispatch[i])
    ensures forall i | 0 <= i < |s.delivered| :: EventTrue(issued, returned, s.delivered[i])
  {
    hide EventTrue, WorkerTrue, JobTrue, StreamTrue, CallerTrue, Numbered;
    forall i | 0 <= i < |s.workers| ensures WorkerTrue(issued, returned, s.workers[i].pc) {
      WorkerStaysTrue(s.issued, s.returned, s.workers[i].pc, issued, returned);
    }
    forall i | 0 <= i < |s.dispatch| ensures EventTrue(issued, returned, s.dispatch[i]) {
      EventStaysTrue(s.issued, s.returned, s.dispatch[i], issued, returned);
    }
    forall i | 0 <= i < |s.delivered| ensures EventTrue(issued, returned, s.delivered[i]) {
      EventStaysTrue(s.issued, s.returned, s.delivered[i], issued, returned);
    }
  }

  /** The next id may be given to any job. */
  lemma IssueKeepsTruth(s: State, c: nat, job: Job)
    requires Truthful(s) && c < |s.callers|
    ensures Truthful(Issue(s, c, job))
  {
    hide EventTrue, WorkerTrue, Answerable;
    StaysTruthful(s, Issue(s, c, job).issued, s.returned);
  }

  lemma CallerKeepsTruth(s: State, c: nat, act: CallerAct)
    requires Truthful(s) && CallerMay(s, c, act)
    ensures Truthful(Call(s, c, act))
  {
    hide Reports, Issue;
    if act.IssueStatus? {
      IssueKeepsTruth(s, c, StatusJob(s.callers[c].station));
    }
  }

  lemma MoveKeepsTruth(id: nat, st: Station, halted: bool, listed: bool, client: Client, act: StreamAct)
    requires StreamTrue(st.pc) && (act.Answered? ==> st.pc.Registering?) && (act.OpenRefused? ==> st.pc.Opening?)
    ensures var move := Moving(id, st, halted, listed, client, act);
            StreamTrue(move.st.pc) && forall event | event in move.out :: !IsAnswer(event)
  {
    hide CallbackFor, Permanent, Going;
    if act.Heard? {
      CallbacksAreNoAnswers(id, act.event);
    } else if act.Go? {
      GoKeepsTruth(id, st, halted, listed, client);
    }
  }

  lemma GoKeepsTruth(id: nat, st: Station, halted: bool, listed: bool, client: Client)
    requires StreamTrue(st.pc)
    ensures var move := Going(id, st, halted, listed, client);
            StreamTrue(move.st.pc) && forall event | event in move.out :: !IsAnswer(event)
  {
    hide IsAnswer;
    PendingShrinks(id, st, halted, listed, client);
  }

  lemma PendingShrinks(id: nat, st: Station, halted: bool, listed: bool, client: Client)
    requires StreamTrue(st.pc)
    ensures var move := Going(id, st, halted, listed, client); Pending(st.pc) == move.out + Pending(move.st.pc)
    ensures var pc := Going(id, st, halted, listed, client).st.pc;
            pc.Refreshing? || pc.Refreshed? ==> pc.after.LoopTop? || pc.after.Settling? || pc.after.Reading?
  {
    hide IsAnswer;
  }

  lemma StreamKeepsTruth(s: State, id: nat, act: StreamAct)
    requires Truthful(s) && StreamMay(s, id, act)
    ensures Truthful(StreamStep(s, id, act))
  {
    hide Moving, StreamStep, Reports, JobTrue, WorkerTrue, StreamTrue;
    var st := s.created[id];
    assert StreamTrue(st.pc);
    StreamMoves(s, id, act);
    StreamLeavesPool(s, id, act);
    MoveKeepsTruth(id, st, st.stopping || !s.running, id in s.stations, ClientOf(s.config, s.url), act);
  }

  lemma AskingKeepsTruth(s: State, act: MainAct)
    requires |s.callers| >= STREAMS && Truthful(s)
    ensures Truthful(Asking(s, act))
  {
    hide Reports, Issue;
    match act
    case Command(id, kind, command, flagKey, resultKey) =>
      IssueKeepsTruth(s, MAIN, Job(kind, id, 0, command, flagKey, resultKey));
    case ListStations => IssueKeepsTruth(s, MAIN, Job(JobListStations, INVALID_STATION, 0, [], [], []));
    case _ =>
  }

  // What the main thread changes of the rest while it starts, stops or destroys something.

  predicate SameHistory(s: State, t: State) {
    && t.nextRequest == s.nextRequest && t.issued == s.issued
    && t.dispatch == s.dispatch && t.pushed == s.pushed && t.delivered == s.delivered
    && t.enqueued == s.enqueued && t.stations == s.stations && t.returned == s.returned
  }

  predicate Unnumbered(c: Caller) {
    c.InHand? && c.job.request == 0 && !Answerable(c.job)
  }

  predicate AtMostUnnumbered(callers: seq<Caller>, later: seq<Caller>)
    requires |callers| >= STREAMS
  {
    later == callers || (|later| == |callers| && Unnumbered(later[MAIN]) && later == callers[MAIN := later[MAIN]])
  }

  predicate NoNewWork(workers: seq<Worker>, later: seq<Worker>) {
    forall w | 0 <= w < |later| :: later[w].pc == Wanting || (w < |workers| && workers[w].pc == later[w].pc)
  }

  predicate SamePlaces(created: seq<Station>, later: seq<Station>) {
    && |later| == |created|
    && forall i | 0 <= i < |created| :: later[i].pc == created[i].pc && later[i].slug == created[i].slug
  }

  lemma StopChanges(s: State)
    requires InStop(s.main)
    ensures var t := Stop(s);
            && SameHistory(s, t) && t.callers == s.callers && t.created == s.created && NoNewWork(s.workers, t.workers)
            && (if s.main.Clearing? then t.jobs == [] && t.dropped == s.dropped + s.jobs
                else t.jobs == s.jobs && t.dropped == s.dropped)
  {
  }

  lemma StartChanges(s: State)
    requires |s.callers| >= STREAMS && InStart(s.main)
    ensures var t := Start(s);
            && SameHistory(s, t) && AtMostUnnumbered(s.callers, t.callers) && t.created == s.created
            && NoNewWork(s.workers, t.workers) && t.jobs == s.jobs && t.dropped == s.dropped
  {
  }

  lemma EndChanges(s: State)
    requires |s.callers| >= STREAMS && CanContinue(s)
    requires InEnd(s.main)
    ensures var t := End(s);
            && SameHistory(s, t) && AtMostUnnumbered(s.callers, t.callers) && SamePlaces(s.created, t.created)
            && t.workers == s.workers && t.jobs == s.jobs && t.dropped == s.dropped
  {
  }

  lemma ContinuingChanges(s: State)
    requires |s.callers| >= STREAMS && CanContinue(s)
    ensures var t := ContinueMain(s);
            && SameHistory(s, t) && AtMostUnnumbered(s.callers, t.callers) && SamePlaces(s.created, t.created)
            && NoNewWork(s.workers, t.workers)
            && (if s.main.Clearing? then t.jobs == [] && t.dropped == s.dropped + s.jobs
                else t.jobs == s.jobs && t.dropped == s.dropped)
  {
    hide Stop, Start, End, Unnumbered;
    if s.main.Outside? {
    } else if InStop(s.main) {
      StopChanges(s);
    } else if InStart(s.main) {
      StartChanges(s);
    } else {
      EndChanges(s);
    }
  }

  lemma ContinuingKeepsTruth(s: State)
    requires |s.callers| >= STREAMS && Truthful(s) && CanContinue(s)
    ensures Truthful(ContinueMain(s))
  {
    hide Reports, ContinueMain, EventTrue, StreamTrue;
    ContinuingChanges(s);
  }

  lemma MainKeepsTruth(s: State, act: MainAct)
    requires |s.callers| >= STREAMS && Truthful(s) && MainMay(s, act)
    ensures Truthful(Mainly(s, act))
  {
    hide Asking, ContinueMain, Configuring, Reloading, Destroying, ShuttingDown, JobTrue, WorkerTrue, EventTrue,
         CanContinue;
    match act
    case Continue => ContinuingKeepsTruth(s);
    case Configure(_, _) | Reload(_, _) | Destroy(_) | Shutdown => ArrangingAsksNothing(s, act);
    case Create(_) | Tick =>
    case _ => AskingKeepsTruth(s, act);
  }

  /** Configuring, and the start of a takedown, hand nothing in. */
  lemma ArrangingAsksNothing(s: State, act: MainAct)
    requires |s.callers| >= STREAMS && MainMay(s, act)
    requires act.Configure? || act.Reload? || act.Destroy? || act.Shutdown?
    ensures var t := Mainly(s, act);
            && t.nextRequest == s.nextRequest && t.issued == s.issued && t.callers == s.callers && t.jobs == s.jobs
            && t.workers == s.workers && t.dispatch == s.dispatch && t.pushed == s.pushed
            && t.delivered == s.delivered && t.dropped == s.dropped && t.created == s.created
            && t.returned == s.returned
  {
    hide Usable, LiveIds, ConnectionDiffers, CanContinue;
  }

  lemma StepKeepsTruth(s: State, step: Step)
    requires PoolShape(s) && Truthful(s) && Enabled(s, step)
    ensures Truthful(Do(s, step))
  {
    hide Work, Call, Mainly, StreamStep, StreamMay, WorkerMay, CallerMay, MainMay, WorkerTrue, JobTrue, EventTrue,
         StreamTrue;
    match step
    case WorkerDoes(w, act) => WorkerKeepsTruth(s, w, act);
    case CallerDoes(c, act) => CallerKeepsTruth(s, c, act);
    case MainDoes(act) => MainKeepsTruth(s, act);
    case PollerDoes(act) =>
    case StreamDoes(id, act) => StreamKeepsTruth(s, id, act);
  }

  // ----- where an id is -----

  function HasInHand(r: nat): Caller -> bool {
    (c: Caller) => c.InHand? && c.job.request == r
  }

  function NumberedAs(r: nat): Job -> bool {
    (job: Job) => job.request == r
  }

  function WorksOn(r: nat): Worker -> bool {
    (w: Worker) =>
      match w.pc
      case Calling(job) => job.request == r
      case Reregistering(job) => job.request == r
      case Answering(_, todo) => todo != [] && IsAnswer(todo[0]) && todo[0].request == r
      case _ => false
  }

  function AnswersTo(r: nat): PawnEvent -> bool {
    (event: PawnEvent) => IsAnswer(event) && event.request == r
  }

  /** In how many places id `r` is: in a caller's hand, queued, at a worker, in an answer waiting for the main thread
      or given to it, thrown away by StopWorkers. */
  function Places(s: State, r: nat): nat {
    Count(s.callers, HasInHand(r)) + Count(s.jobs, NumberedAs(r)) + Count(s.workers, WorksOn(r))
    + Count(s.dispatch, AnswersTo(r)) + Count(s.delivered, AnswersTo(r)) + Count(s.dropped, NumberedAs(r))
  }

  predicate Placed(s: State, r: nat) {
    if r > |s.issued| then Places(s, r) == 0
    else if r > 0 && Answerable(s.issued[r - 1]) then Places(s, r) == 1
    else r > 0 ==> Places(s, r) <= 1
  }

  lemma WorkerKeepsPlaced(s: State, w: nat, act: WorkerAct, r: nat)
    requires Truthful(s) && WorkerMay(s, w, act) && Placed(s, r) && r > 0
    ensures Placed(Work(s, w, act), r)
  {
    hide Work, Count, Truthful, WorksOn, NumberedAs, AnswersTo, Answerable;
    var t := Work(s, w, act);
    WorkerFrame(s, w, act);
    CountUpdate(s.workers, w, t.workers[w], WorksOn(r));
    if act.Take? {
      CountFirst(s.jobs, NumberedAs(r));
    }
    if act.PushAnswer? {
      CountSnoc(s.dispatch, s.workers[w].pc.todo[0], AnswersTo(r));
      assert s.workers[w].pc.todo[..1] == [s.workers[w].pc.todo[0]];
    } else {
      assert t.dispatch == s.dispatch;
    }
    WorkerHandsOn(s, w, act, r);
  }

  /** A worker lets go of an id only by pushing its answer, or when the id is not one that is answered. */
  lemma WorkerHandsOn(s: State, w: nat, act: WorkerAct, r: nat)
    requires Truthful(s) && WorkerMay(s, w, act) && r > 0
    ensures var had, has := WorksOn(r)(s.workers[w]), WorksOn(r)(Work(s, w, act).workers[w]);
            && (act.Take? ==> !had && has == NumberedAs(r)(s.jobs[0]))
            && (act.PushAnswer? ==> had == AnswersTo(r)(s.workers[w].pc.todo[0]) && !has)
            && (!act.Take? && !act.PushAnswer? ==>
                  has == had || (had && !has && r <= |s.issued| && !Answerable(s.issued[r - 1])))
  {
    hide Answers, Reports, EventTrue, CallerTrue, StreamTrue, StationStops, JobTrue, Answerable, Numbered;
    assert WorkerTrue(s.issued, s.returned, s.workers[w].pc);
    if act.Return? || act.GiveUp? || act.Reregister? {
      hide Truthful;
      WorkerFinishes(s, w, act, r);
    }
  }

  /** The job in hand is answered by its own id, or it is not one that is answered. */
  lemma WorkerFinishes(s: State, w: nat, act: WorkerAct, r: nat)
    requires WorkerMay(s, w, act) && r > 0 && WorkerTrue(s.issued, s.returned, s.workers[w].pc)
    requires act.Return? || act.GiveUp? || act.Reregister?
    ensures var had, has := WorksOn(r)(s.workers[w]), WorksOn(r)(Work(s, w, act).workers[w]);
            has == had || (had && !has && r <= |s.issued| && !Answerable(s.issued[r - 1]))
  {
    hide Answers, Reports, EventTrue, StationStops, JobTrue, Answerable;
    var pc := s.workers[w].pc;
    TrueJobIsIssued(s.issued, pc.job, r);
    if act.Return? {
      AnswersAreTrue(s.issued, Work(s, w, act).returned, pc.job, act.reply);
    }
  }

  lemma TrueJobIsIssued(issued: seq<Job>, job: Job, r: nat)
    requires JobTrue(issued, job)
    ensures r > 0 && job.request == r ==> r <= |issued| && issued[r - 1] == job
  {
  }

  lemma IssueKeepsPlaced(s: State, c: nat, job: Job, r: nat)
    requires Truthful(s) && c < |s.callers| && !s.callers[c].InHand? && Placed(s, r) && r > 0
    ensures Placed(Issue(s, c, job), r)
  {
    hide Count, JobTrue, EventTrue, CallerTrue, StreamTrue, WorkerTrue, Answerable, WorksOn, AnswersTo, NumberedAs;
    var t := Issue(s, c, job);
    CountUpdate(s.callers, c, t.callers[c], HasInHand(r));
  }

  lemma CallerKeepsPlaced(s: State, c: nat, act: CallerAct, r: nat)
    requires Truthful(s) && CallerMay(s, c, act) && Placed(s, r) && r > 0
    ensures Placed(Call(s, c, act), r)
  {
    hide Issue, Count, Truthful, Answerable, AnswersTo;
    var t := Call(s, c, act);
    match act
    case IssueStatus => IssueKeepsPlaced(s, c, StatusJob(s.callers[c].station), r);
    case PushJob =>
      CountUpdate(s.callers, c, t.callers[c], HasInHand(r));
      CountSnoc(s.jobs, s.callers[c].job, NumberedAs(r));
    case Notify(w) =>
      CountUpdate(s.callers, c, t.callers[c], HasInHand(r));
      CountUpdate(s.workers, w, t.workers[w], WorksOn(r));
    case NotifyNobody => CountUpdate(s.callers, c, t.callers[c], HasInHand(r));
  }

  lemma StreamKeepsPlaced(s: State, id: nat, act: StreamAct, r: nat)
    requires Truthful(s) && StreamMay(s, id, act) && Placed(s, r)
    ensures Placed(StreamStep(s, id, act), r)
  {
    hide Count, Moving, WorksOn, NumberedAs, JobTrue, EventTrue, WorkerTrue, CallerTrue;
    var t := StreamStep(s, id, act);
    var st := s.created[id];
    var out := MoveOf(s, id, act).out;
    AskingTakesRest(s, id, act);
    if MoveOf(s, id, act).asks {
      CountUpdate(s.callers, STREAMS + id, Found(id), HasInHand(r));
    }
    assert StreamTrue(st.pc);
    MoveKeepsTruth(id, st, st.stopping || !s.running, id in s.stations, ClientOf(s.config, s.url), act);
    CountAppend(s.dispatch, out, AnswersTo(r));
    CountNone(out, AnswersTo(r));
  }

  lemma AskingKeepsPlaced(s: State, act: MainAct, r: nat)
    requires |s.callers| >= STREAMS && Truthful(s) && s.callers[MAIN] == Resting && Placed(s, r) && r > 0
    ensures Placed(Asking(s, act), r)
  {
    hide Issue, Count, Truthful, Answerable, AnswersTo, WorksOn, NumberedAs;
    match act
    case Command(id, kind, command, flagKey, resultKey) =>
      IssueKeepsPlaced(s, MAIN, Job(kind, id, 0, command, flagKey, resultKey), r);
    case ListStations => IssueKeepsPlaced(s, MAIN, Job(JobListStations, INVALID_STATION, 0, [], [], []), r);
    case _ => CountUpdate(s.callers, MAIN, Asking(s, act).callers[MAIN], HasInHand(r));
  }

  /** What is counted is neither idle nor gone. */
  ghost predicate Busy(p: Worker -> bool) {
    forall w: Worker | p(w) :: w.pc != Wanting && w.pc != Parked && w.pc != Exited
  }

  lemma ContinuingKeepsCount(s: State, p: Worker -> bool)
    requires |s.callers| >= STREAMS && CanContinue(s) && Busy(p)
    ensures Count(ContinueMain(s).workers, p) == Count(s.workers, p)
  {
    hide Count, Start, Stop, End, Busy;
    if InStop(s.main) {
      StopKeepsCount(s, p);
    } else if InStart(s.main) {
      StartKeepsCount(s, p);
    } else if s.main != Outside {
      EndChanges(s);
    }
  }

  lemma StopKeepsCount(s: State, p: Worker -> bool)
    requires InStop(s.main) && CanContinue(s) && Busy(p)
    ensures Count(Stop(s).workers, p) == Count(s.workers, p)
  {
    hide Count;
    if s.main.Waking? {
      CountSame(s.workers, WakeAll(s.workers), p);
    } else if s.main.Joining? {
      CountNone(s.workers, p);
      CountNone([], p);
    }
  }

  lemma StartKeepsCount(s: State, p: Worker -> bool)
    requires |s.callers| >= STREAMS && InStart(s.main) && Busy(p)
    ensures Count(Start(s).workers, p) == Count(s.workers, p)
  {
    hide Count;
    CountSnoc(s.workers, Worker(ClientOf(s.config, s.url), Wanting), p);
  }

  lemma WorkingIsBusy(r: nat)
    ensures Busy(WorksOn(r))
  {
  }

  lemma ContinuingKeepsPlaced(s: State, r: nat)
    requires |s.callers| >= STREAMS && CanContinue(s) && s.callers[MAIN] == Resting && Placed(s, r) && r > 0
    ensures Placed(ContinueMain(s), r)
  {
    hide Count, ContinueMain, Answerable, AnswersTo, WorksOn, NumberedAs;
    var t := ContinueMain(s);
    ContinuingChanges(s);
    ContinuingKeepsCount(s, WorksOn(r)) by { WorkingIsBusy(r); }
    CountUpdate(s.callers, MAIN, t.callers[MAIN], HasInHand(r));
    CountAppend(s.dropped, s.jobs, NumberedAs(r));
    CountNone([], NumberedAs(r));
  }

  lemma MainKeepsPlaced(s: State, act: MainAct, r: nat)
    requires |s.callers| >= STREAMS && Truthful(s) && MainMay(s, act) && Placed(s, r) && r > 0
    ensures Placed(Mainly(s, act), r)
  {
    hide Placed, ContinueMain, Asking, Truthful, Configuring, Reloading, Destroying, ShuttingDown, CanContinue;
    match act
    case Continue => ContinuingKeepsPlaced(s, r);
    case Configure(_, _) | Reload(_, _) | Destroy(_) | Shutdown =>
      ArrangingAsksNothing(s, act);
      SamePlaced(s, Mainly(s, act), r);
    case Create(slug) => CreateKeepsPlaced(s, slug, r);
    case Tick => TickKeepsPlaced(s, r);
    case _ => AskingKeepsPlaced(s, act, r);
  }

  lemma SamePlaced(s: State, t: State, r: nat)
    requires t.callers == s.callers && t.jobs == s.jobs && t.workers == s.workers && t.dispatch == s.dispatch
    requires t.delivered == s.delivered && t.dropped == s.dropped && t.issued == s.issued && Placed(s, r)
    ensures Placed(t, r)
  {
  }

  lemma CreateKeepsPlaced(s: State, slug: bytes, r: nat)
    requires Placed(s, r)
    ensures Placed(Creating(s, slug), r)
  {
    hide Count, Answerable, AnswersTo, WorksOn, NumberedAs, CreateAccepts;
    CountSnoc(s.callers, Resting, HasInHand(r));
  }

  lemma TickKeepsPlaced(s: State, r: nat)
    requires |s.callers| >= STREAMS && MainMay(s, Tick) && Placed(s, r)
    ensures Placed(Mainly(s, Tick), r)
  {
    hide Count, Answerable, AnswersTo, WorksOn, NumberedAs, HasInHand;
    CountAppend(s.delivered, s.dispatch, AnswersTo(r));
    CountNone([], AnswersTo(r));
  }

  lemma StepKeepsPlaced(s: State, step: Step, r: nat)
    requires PoolShape(s) && Truthful(s) && Enabled(s, step) && Placed(s, r) && r > 0
    ensures Placed(Do(s, step), r)
  {
    hide Work, Call, Mainly, StreamStep, StreamMay, WorkerMay, CallerMay, MainMay, Truthful, Count, WorksOn, NumberedAs,
         AnswersTo;
    match step
    case WorkerDoes(w, act) => WorkerKeepsPlaced(s, w, act, r);
    case CallerDoes(c, act) => CallerKeepsPlaced(s, c, act, r);
    case MainDoes(act) => MainKeepsPlaced(s, act, r);
    case PollerDoes(act) => CountUpdate(s.callers, POLLER, Do(s, step).callers[POLLER], HasInHand(r));
    case StreamDoes(id, act) => StreamKeepsPlaced(s, id, act, r);
  }

  // ----- over every run -----

  ghost predicate Accounted(s: State) {
    Truthful(s) && forall r | r > 0 :: Placed(s, r)
  }

  lemma NothingIssuedYet(s: State)
    requires Init(s)
    ensures Accounted(s)
  {
    forall r | r > 0 ensures Placed(s, r) {
      CountNone(s.callers, HasInHand(r));
    }
  }

  lemma {:induction false} RequestsAlongRun(states: seq<State>, i: nat)
    requires Run(states) && i < |states|
    ensures Accounted(states[i])
  {
    hide Enabled, Do, PoolShape, Covered, Placed, Truthful;
    if i == 0 {
      NothingIssuedYet(states[0]);
    } else {
      var s := states[i - 1];
      RequestsAlongRun(states, i - 1);
      PoolAlongRun(states, i - 1);
      var step := StepTaken(states, i - 1);
      StepKeepsTruth(s, step);
      forall r | r > 0 ensures Placed(states[i], r) {
        StepKeepsPlaced(s, step, r);
      }
    }
  }

  /** In every reachable state each command and queued track that was given an id is in exactly one place: it is
      never lost but by StopWorkers, and never in two hands. */
  lemma ExactlyOnePlace(states: seq<State>, i: nat, r: nat)
    requires Run(states) && i < |states|
    requires 0 < r <= |states[i].issued| && Answerable(states[i].issued[r - 1])
    ensures Places(states[i], r) == 1
  {
    hide Truthful;
    RequestsAlongRun(states, i);
    assert Placed(states[i], r);
  }

  /** No two events, waiting or given to the main thread, answer the same id. */
  lemma AnsweredAtMostOnce(states: seq<State>, i: nat, j: nat, k: nat)
    requires Run(states) && i < |states|
    requires var all := states[i].delivered + states[i].dispatch; j < k < |all| && IsAnswer(all[j]) && IsAnswer(all[k])
    ensures var all := states[i].delivered + states[i].dispatch; all[j].request != all[k].request
  {
    hide Count, Placed;
    var s := states[i];
    var all := s.delivered + s.dispatch;
    RequestsAlongRun(states, i);
    AnswerIsTrue(s, j);
    var r := all[j].request;
    if r == all[k].request {
      CountTwo(all, j, k, AnswersTo(r));
      CountAppend(s.delivered, s.dispatch, AnswersTo(r));
      PlacedOnce(s, r);
      assert false;
    }
  }

  lemma PlacedOnce(s: State, r: nat)
    requires Placed(s, r) && r > 0
    ensures Places(s, r) <= 1
  {
  }

  lemma AnswerIsTrue(s: State, j: nat)
    requires Truthful(s) && j < |s.delivered + s.dispatch|
    ensures EventTrue(s.issued, s.returned, (s.delivered + s.dispatch)[j])
  {
    hide EventTrue, JobTrue, WorkerTrue, CallerTrue, StreamTrue;
  }

  /** And an answer is about the very job the id was given out for. */
  lemma AnswersReportOnTheirJob(states: seq<State>, i: nat, j: nat)
    requires Run(states) && i < |states|
    requires var all := states[i].delivered + states[i].dispatch; j < |all| && IsAnswer(all[j])
    ensures var s := states[i]; var event := (s.delivered + s.dispatch)[j];
            0 < event.request <= |s.issued| && ReportsReturn(s.returned, event, s.issued[event.request - 1])
  {
    RequestsAlongRun(states, i);
    AnswerIsTrue(states[i], j);
  }

  // ----- history only grows -----

  predicate Grew(s: State, t: State) {
    s.issued <= t.issued && s.delivered <= t.delivered && s.pushed <= t.pushed && s.dropped <= t.dropped
  }

  lemma MainGrows(s: State, act: MainAct)
    requires |s.callers| >= STREAMS && MainMay(s, act)
    ensures Grew(s, Mainly(s, act))
  {
    hide ContinueMain, Configuring, Reloading, Destroying, ShuttingDown, CanContinue;
    match act
    case Continue => ContinuingChanges(s);
    case Configure(_, _) | Reload(_, _) | Destroy(_) | Shutdown => ArrangingAsksNothing(s, act);
    case _ =>
  }

  lemma StepGrows(s: State, step: Step)
    requires Enabled(s, step)
    ensures Grew(s, Do(s, step))
  {
    hide Work, StreamStep, WorkerMay, StreamMay, Mainly, MainMay;
    match step
    case WorkerDoes(w, act) => WorkerGrows(s, w, act);
    case MainDoes(act) => MainGrows(s, act);
    case StreamDoes(id, act) => StreamGrows(s, id, act);
    case _ =>
  }

  lemma WorkerGrows(s: State, w: nat, act: WorkerAct)
    requires WorkerMay(s, w, act)
    ensures Grew(s, Work(s, w, act))
  {
    hide Answers, RegisteredEvent, ErrorEvent;
  }

  lemma StreamGrows(s: State, id: nat, act: StreamAct)
    requires StreamMay(s, id, act)
    ensures Grew(s, StreamStep(s, id, act))
  {
    hide Moving;
  }

  /** Ids are numbered in the order they are given out and an id once given out stands for the same job for ever. */
  lemma {:induction false} IdsAreNeverReused(states: seq<State>, i: nat, j: nat)
    requires Run(states) && i <= j < |states|
    ensures states[i].issued <= states[j].issued && Numbered(states[j].issued)
    ensures |states[j].issued| == states[j].nextRequest
    decreases j
  {
    hide Enabled, Do, Placed;
    RequestsAlongRun(states, j);
    if i < j {
      IdsAreNeverReused(states, i, j - 1);
      var step := StepTaken(states, j - 1);
      StepGrows(states[j - 1], step);
    }
  }
}
