/**
 Every command and queued track is called at most once, on every run, so that what is reported of it is what that call
 returned.
 */
module ManagerReplies {
  import opened Json
  import opened StatusCache
  import opened Managers
  import opened Counting
  import opened ManagerPool
  import opened ManagerRequests

  function ReturnedFor(r: nat): ((nat, Reply)) -> bool {
    (entry: (nat, Reply)) => entry.0 == r
  }

  /** Whether the answer to `r` is what a worker pushes next. */
  function Tells(r: nat): Worker -> bool {
    (w: Worker) =>
      w.pc.Answering? && w.pc.todo != [] && IsAnswer(w.pc.todo[0]) && w.pc.todo[0].request == r
  }

  /** The answers to `r` there are: at a worker, waiting for the main thread, given to it. */
  function Told(s: State, r: nat): nat {
    Count(s.workers, Tells(r)) + Count(s.dispatch, AnswersTo(r)) + Count(s.delivered, AnswersTo(r))
  }

  /** As many answers as calls; no call for an id that was not given out yet. */
  predicate Settled(s: State, r: nat) {
    if r > |s.issued| then Count(s.returned, ReturnedFor(r)) == 0
    else r > 0 && Answerable(s.issued[r - 1]) ==> Count(s.returned, ReturnedFor(r)) == Told(s, r)
  }

  lemma SameSettled(s: State, t: State, r: nat)
    requires Settled(s, r) && t.returned == s.returned && t.issued == s.issued && Told(t, r) == Told(s, r)
    ensures Settled(t, r)
  {
  }

  /** The job of a call that returned has the id of its answer, when it has one. */
  lemma ReturnTells(s: State, w: nat, reply: Reply, r: nat)
    requires WorkerMay(s, w, Return(reply)) && r > 0 && WorkerTrue(s.issued, s.returned, s.workers[w].pc)
    requires r <= |s.issued| ==> Answerable(s.issued[r - 1])
    ensures var t := Work(s, w, Return(reply)); var told := s.workers[w].pc.job.request == r;
            && t.returned == s.returned + [(s.workers[w].pc.job.request, reply)]
            && !Tells(r)(s.workers[w]) && (r > |s.issued| ==> !told)
            && (r <= |s.issued| ==> Tells(r)(t.workers[w]) == told)
  {
    hide Answers, Reports, EventTrue, JobTrue, Answerable;
    var job := s.workers[w].pc.job;
    TrueJobIsIssued(s.issued, job, r);
    AnswersAreTrue(s.issued, Work(s, w, Return(reply)).returned, job, reply);
  }

  /** In every other step a worker lets go of an answer only by pushing it. */
  lemma WorkerTells(s: State, w: nat, act: WorkerAct, r: nat)
    requires WorkerMay(s, w, act) && !act.Return? && WorkerTrue(s.issued, s.returned, s.workers[w].pc)
    ensures var had, has := Tells(r)(s.workers[w]), Tells(r)(Work(s, w, act).workers[w]);
            if act.PushAnswer? then had == AnswersTo(r)(s.workers[w].pc.todo[0]) && !has else had == has
  {
    hide Answers, Reports, EventTrue, JobTrue, StationStops;
    var pc := Work(s, w, act).workers[w].pc;
    assert act.Reregister? ==> pc.Answering? && |pc.todo| == 1 && !IsAnswer(pc.todo[0]);
  }

  lemma WorkerSettles(s: State, w: nat, act: WorkerAct, r: nat)
    requires Truthful(s) && WorkerMay(s, w, act) && Settled(s, r) && r > 0
    ensures Settled(Work(s, w, act), r)
  {
    hide Work, Count, Tells, AnswersTo, WorkerTrue, JobTrue, EventTrue, CallerTrue, StreamTrue, Answerable;
    var t := Work(s, w, act);
    WorkerFrame(s, w, act);
    assert WorkerTrue(s.issued, s.returned, s.workers[w].pc);
    if r <= |s.issued| && !Answerable(s.issued[r - 1]) {
      return;
    }
    CountUpdate(s.workers, w, t.workers[w], Tells(r));
    PushIsCounted(s, w, act, r);
    if act.Return? {
      ReturnTells(s, w, act.reply, r);
      CountSnoc(s.returned, (s.workers[w].pc.job.request, act.reply), ReturnedFor(r));
    } else {
      WorkerTells(s, w, act, r);
    }
  }

  lemma PushIsCounted(s: State, w: nat, act: WorkerAct, r: nat)
    requires WorkerMay(s, w, act)
    ensures Count(Work(s, w, act).dispatch, AnswersTo(r)) ==
            Count(s.dispatch, AnswersTo(r))
            + if act.PushAnswer? then One(AnswersTo(r)(s.workers[w].pc.todo[0])) else 0
  {
    hide Work, Count, AnswersTo;
    WorkerFrame(s, w, act);
    if act.PushAnswer? {
      assert s.workers[w].pc.todo[..1] == [s.workers[w].pc.todo[0]];
      CountSnoc(s.dispatch, s.workers[w].pc.todo[0], AnswersTo(r));
    } else {
      assert s.dispatch + [] == s.dispatch;
    }
  }

  /** Nothing is told of an id before it is given out. */
  lemma IssueSettles(s: State, c: nat, job: Job, r: nat)
    requires Placed(s, r) && Settled(s, r) && c < |s.callers| && r > 0
    ensures Settled(Issue(s, c, job), r)
  {
    hide Count, Answerable;
    if r == |s.issued| + 1 {
      CountLess(s.workers, Tells(r), WorksOn(r));
    }
  }

  lemma {:induction false} CountLess<T>(xs: seq<T>, p: T -> bool, q: T -> bool)
    requires forall x | x in xs :: p(x) ==> q(x)
    ensures Count(xs, p) <= Count(xs, q)
  {
    if xs != [] {
      CountLess(xs[..|xs| - 1], p, q);
    }
  }

  lemma CallerSettles(s: State, c: nat, act: CallerAct, r: nat)
    requires CallerMay(s, c, act) && Placed(s, r) && Settled(s, r) && r > 0
    ensures Settled(Call(s, c, act), r)
  {
    hide Issue, Count, Placed, Settled, AnswersTo, Answerable;
    var t := Call(s, c, act);
    match act
    case IssueStatus => IssueSettles(s, c, StatusJob(s.callers[c].station), r);
    case Notify(w) =>
      CountUpdate(s.workers, w, t.workers[w], Tells(r));
      SameSettled(s, t, r);
    case _ => SameSettled(s, t, r);
  }

  lemma StreamSettles(s: State, id: nat, act: StreamAct, r: nat)
    requires Truthful(s) && StreamMay(s, id, act) && Settled(s, r)
    ensures Settled(StreamStep(s, id, act), r)
  {
    hide Count, Moving, Tells, JobTrue, EventTrue, WorkerTrue, CallerTrue, Settled, StreamStep, StreamTrue, Numbered;
    StreamMoves(s, id, act);
    StreamLeavesPool(s, id, act);
    var st := s.created[id];
    var out := MoveOf(s, id, act).out;
    assert StreamTrue(st.pc);
    MoveKeepsTruth(id, st, st.stopping || !s.running, id in s.stations, ClientOf(s.config, s.url), act);
    CountAppend(s.dispatch, out, AnswersTo(r));
    CountNone(out, AnswersTo(r));
    SameSettled(s, StreamStep(s, id, act), r);
  }

  lemma AskingSettles(s: State, act: MainAct, r: nat)
    requires |s.callers| >= STREAMS && Placed(s, r) && Settled(s, r) && r > 0
    ensures Settled(Asking(s, act), r)
  {
    hide Issue, Count, Placed, Settled;
    match act
    case Command(id, kind, command, flagKey, resultKey) =>
      IssueSettles(s, MAIN, Job(kind, id, 0, command, flagKey, resultKey), r);
    case ListStations => IssueSettles(s, MAIN, Job(JobListStations, INVALID_STATION, 0, [], [], []), r);
    case _ => SameSettled(s, Asking(s, act), r);
  }

  lemma MainSettles(s: State, act: MainAct, r: nat)
    requires |s.callers| >= STREAMS && MainMay(s, act) && Placed(s, r) && Settled(s, r) && r > 0
    ensures Settled(Mainly(s, act), r)
  {
    hide ContinueMain, Asking, Configuring, Reloading, Destroying, ShuttingDown, CanContinue, Count, Placed, Settled,
         Tells, AnswersTo, CreateAccepts;
    var t := Mainly(s, act);
    match act
    case Continue =>
      ContinuingChanges(s);
      ContinuingKeepsCount(s, Tells(r)) by { TellersAreBusy(r); }
      SameSettled(s, t, r);
    case Configure(_, _) | Reload(_, _) | Destroy(_) | Shutdown =>
      ArrangingAsksNothing(s, act);
      SameSettled(s, t, r);
    case Create(_) => SameSettled(s, t, r);
    case Tick =>
      CountAppend(s.delivered, s.dispatch, AnswersTo(r));
      CountNone([], AnswersTo(r));
      SameSettled(s, t, r);
    case _ => AskingSettles(s, act, r);
  }

  lemma TellersAreBusy(r: nat)
    ensures Busy(Tells(r))
  {
  }

  lemma StepSettles(s: State, step: Step, r: nat)
    requires PoolShape(s) && Truthful(s) && Enabled(s, step) && Placed(s, r) && Settled(s, r) && r > 0
    ensures Settled(Do(s, step), r)
  {
    hide Work, Call, Mainly, StreamStep, StreamMay, WorkerMay, CallerMay, MainMay, Truthful, Count, Tells, AnswersTo,
         Settled, Placed;
    match step
    case WorkerDoes(w, act) => WorkerSettles(s, w, act, r);
    case CallerDoes(c, act) => CallerSettles(s, c, act, r);
    case MainDoes(act) => MainSettles(s, act, r);
    case PollerDoes(act) => SameSettled(s, Do(s, step), r);
    case StreamDoes(id, act) => StreamSettles(s, id, act, r);
  }

  lemma {:induction false} SettledAlongRun(states: seq<State>, i: nat, r: nat)
    requires Run(states) && i < |states| && r > 0
    ensures Settled(states[i], r)
  {
    hide Enabled, Do, PoolShape, Covered, Placed, Truthful;
    if i > 0 {
      var s := states[i - 1];
      SettledAlongRun(states, i - 1, r);
      RequestsAlongRun(states, i - 1);
      PoolAlongRun(states, i - 1);
      var step := StepTaken(states, i - 1);
      assert Placed(s, r);
      StepSettles(s, step, r);
    }
  }

  /** No command and no queued track is called twice. */
  lemma CalledAtMostOnce(states: seq<State>, i: nat, j: nat, k: nat)
    requires Run(states) && i < |states| && j < k < |states[i].returned|
    requires var r := states[i].returned[j].0; 0 < r <= |states[i].issued| && Answerable(states[i].issued[r - 1])
    ensures states[i].returned[k].0 != states[i].returned[j].0
  {
    hide Count, Placed, Truthful, Answerable;
    var s := states[i];
    var r := s.returned[j].0;
    SettledAlongRun(states, i, r);
    RequestsAlongRun(states, i);
    if s.returned[k].0 == r {
      CountTwo(s.returned, j, k, ReturnedFor(r));
      TellingIsAPlace(s, r);
      assert false;
    }
  }

  lemma TellingIsAPlace(s: State, r: nat)
    requires r > 0 && Placed(s, r)
    ensures Told(s, r) <= 1
  {
    hide Count;
    CountLess(s.workers, Tells(r), WorksOn(r));
  }

  /** So whatever a call for its id returned is what an answer reports. */
  lemma AnswersTellWhatReturned(states: seq<State>, i: nat, j: nat, k: nat)
    requires Run(states) && i < |states| && k < |states[i].returned|
    requires var all := states[i].delivered + states[i].dispatch;
             j < |all| && IsAnswer(all[j]) && all[j].request == states[i].returned[k].0
    ensures var s := states[i]; var event := (s.delivered + s.dispatch)[j];
            0 < event.request <= |s.issued| && Reports(event, s.issued[event.request - 1], s.returned[k].1)
  {
    hide Reports, Answerable, Settled;
    var s := states[i];
    var event := (s.delivered + s.dispatch)[j];
    AnswersReportOnTheirJob(states, i, j);
    var job := s.issued[event.request - 1];
    var n :| 0 <= n < |s.returned| && s.returned[n].0 == event.request && Reports(event, job, s.returned[n].1);
    ReportsAreOnAnswerable(event, job, s.returned[n].1);
    if n < k {
      CalledAtMostOnce(states, i, n, k);
    } else if k < n {
      CalledAtMostOnce(states, i, k, n);
    }
  }

  lemma ReportsAreOnAnswerable(event: PawnEvent, job: Job, reply: Reply)
    requires Reports(event, job, reply)
    ensures Answerable(job)
  {
  }
}
