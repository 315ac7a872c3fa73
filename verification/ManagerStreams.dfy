/**
 The stream threads over every run: what each of them does, in what order, and what it pushes.
 */
module ManagerStreams {
  import opened Bytes
  import opened Json
  import opened StatusCache
  import opened Managers
  import opened ManagerPool
  import opened ManagerRequests

  // ----- the order of registrations and subscriptions -----

  predicate IsSuccess(act: Act) {
    act.Registered? || act.Subscribed?
  }

  function Successes(trace: seq<Act>): seq<Act> {
    if trace == [] then []
    else Successes(trace[..|trace| - 1]) + if IsSuccess(trace[|trace| - 1]) then [trace[|trace| - 1]] else []
  }

  /** A registration, a subscription, a registration, a subscription, and so on; only the first registration is not
      a reconnect. */
  predicate Alternate(xs: seq<Act>) {
    forall k | 0 <= k < |xs| ::
      if k % 2 == 0 then xs[k].Registered? && xs[k].reconnect == (k > 0) else xs[k].Subscribed?
  }

  /** How many successes lie behind a thread that is at `pc`. */
  predicate PcFits(pc: StreamPc, n: nat) {
    match pc
    case Starting => n == 0
    case Checking(reconnect, _) => n % 2 == 0 && reconnect == (n > 0)
    case Registering(reconnect, _) => n % 2 == 0 && reconnect == (n > 0)
    case Retrying(reconnect, _) => n % 2 == 0 && reconnect == (n > 0)
    case Announcing(reconnect, _) => n % 2 == 1 && reconnect == (n > 1)
    case Refreshing(after) => if after.Reading? then n % 2 == 0 && n > 0 else n % 2 == 1
    case Refreshed(after) => if after.Reading? then n % 2 == 0 && n > 0 else n % 2 == 1
    case Settling(_) => n % 2 == 1
    case LoopTop(_) => n % 2 == 1
    case Opening(_) => n % 2 == 1
    case OpenFailed(_) => n % 2 == 1
    case Reading => n % 2 == 0 && n > 0
    case Handling(_, _) => n % 2 == 0 && n > 0
    case Closing => n % 2 == 0 && n > 0
    case Refusing(_) => true
    case Ended => true
  }

  predicate InOrder(st: Station) {
    StreamTrue(st.pc) && Alternate(Successes(st.trace)) && PcFits(st.pc, |Successes(st.trace)|)
  }

  lemma SuccessesSnoc(trace: seq<Act>, act: Act)
    ensures Successes(trace + [act]) == Successes(trace) + if IsSuccess(act) then [act] else []
  {
    assert (trace + [act])[..|trace|] == trace;
  }

  predicate Fitting(st: Station, act: StreamAct) {
    && (act.Go? ==> !st.pc.Registering? && !st.pc.Opening? && !st.pc.Reading? && !st.pc.Ended?)
    && (act.Answered? ==> st.pc.Registering?)
    && (act.Opened? || act.OpenRefused? ==> st.pc.Opening?)
    && (act.Heard? || act.Quiet? || act.Dropped? ==> st.pc.Reading?)
  }

  /** A step leaves what a station was created with. */
  lemma MoveKeepsIdentity(id: nat, st: Station, halted: bool, listed: bool, client: Client, act: StreamAct)
    requires Fitting(st, act)
    ensures var later := Moving(id, st, halted, listed, client, act).st;
            later.slug == st.slug && later.made == st.made && later.stopping == st.stopping
  {
    hide CallbackFor, Permanent, RegisteredEvent, ErrorEvent;
  }

  /** And adds at most one act to its trace. */
  lemma MoveAddsOne(id: nat, st: Station, halted: bool, listed: bool, client: Client, act: StreamAct)
    requires Fitting(st, act)
    ensures var later := Moving(id, st, halted, listed, client, act).st;
            later.trace == st.trace || exists a :: a != Unregistered && later.trace == st.trace + [a]
  {
    hide CallbackFor, Permanent, RegisteredEvent, ErrorEvent, Going;
    if act.Go? {
      GoAddsOne(id, st, halted, listed, client);
    }
  }

  lemma GoAddsOne(id: nat, st: Station, halted: bool, listed: bool, client: Client)
    ensures var later := Going(id, st, halted, listed, client).st;
            later.trace == st.trace || exists a :: a != Unregistered && later.trace == st.trace + [a]
  {
  }

  lemma MoveKeepsOrder(id: nat, st: Station, halted: bool, listed: bool, client: Client, act: StreamAct)
    requires Fitting(st, act) && InOrder(st)
    ensures InOrder(Moving(id, st, halted, listed, client, act).st)
  {
    hide Successes, CallbackFor, Permanent, StreamTrue, Going, Alternate;
    var later := Moving(id, st, halted, listed, client, act).st;
    MoveKeepsTruth(id, st, halted, listed, client, act);
    if act.Go? {
      GoKeepsOrder(id, st, halted, listed, client);
    } else if later.trace != st.trace {
      SuccessesSnoc(st.trace, later.trace[|st.trace|]);
      MoreAlternate(Successes(st.trace), later.trace[|st.trace|]);
    }
  }

  lemma GoKeepsOrder(id: nat, st: Station, halted: bool, listed: bool, client: Client)
    requires Fitting(st, Go) && InOrder(st)
    ensures var later := Going(id, st, halted, listed, client).st;
            Successes(later.trace) == Successes(st.trace) && PcFits(later.pc, |Successes(st.trace)|)
  {
    hide Successes;
    var later := Going(id, st, halted, listed, client).st;
    if later.trace != st.trace {
      SuccessesSnoc(st.trace, later.trace[|st.trace|]);
    }
  }

  lemma MoreAlternate(xs: seq<Act>, x: Act)
    ensures Alternate(xs + [])  == Alternate(xs)
    ensures Alternate(xs + [x]) ==
              (Alternate(xs) && if |xs| % 2 == 0 then x.Registered? && x.reconnect == (|xs| > 0) else x.Subscribed?)
  {
    assert xs + [] == xs;
    assert forall k | 0 <= k < |xs| :: (xs + [x])[k] == xs[k];
    assert (xs + [x])[|xs|] == x;
  }

  // ----- nothing after a refusal, nothing after the station is unregistered -----

  predicate Closes(pc: StreamPc, trace: seq<Act>) {
    && (pc.Refusing? ==> trace != [] && trace[|trace| - 1].Refused?)
    && (forall j | 0 <= j < |trace| && trace[j].Refused? ::
          || (pc.Refusing? && j == |trace| - 1)
          || (pc == Ended && forall k | j < k < |trace| ::
                (trace[k].Pushed? && k == j + 1) || trace[k] == Unregistered))
    && (forall j | 0 <= j < |trace| && trace[j] == Unregistered :: pc == Ended && j == |trace| - 1)
  }

  lemma MoveKeepsClosing(id: nat, st: Station, halted: bool, listed: bool, client: Client, act: StreamAct)
    requires Fitting(st, act) && StreamTrue(st.pc) && Closes(st.pc, st.trace)
    ensures var later := Moving(id, st, halted, listed, client, act).st; Closes(later.pc, later.trace)
  {
    hide CallbackFor, Permanent, TypeOf, RegisteredEvent, ErrorEvent, Going;
    if act.Go? {
      GoKeepsClosing(id, st, halted, listed, client);
    }
  }

  lemma GoKeepsClosing(id: nat, st: Station, halted: bool, listed: bool, client: Client)
    requires Fitting(st, Go) && StreamTrue(st.pc) && Closes(st.pc, st.trace)
    ensures var later := Going(id, st, halted, listed, client).st; Closes(later.pc, later.trace)
  {
    if !st.pc.Refusing? {
      assert forall j | 0 <= j < |st.trace| :: !st.trace[j].Refused? && st.trace[j] != Unregistered;
    }
  }

  // ----- events -----

  /** The events that what happened to a thread calls for. */
  function CalledFor(id: nat, act: Act): seq<PawnEvent> {
    match act
    case Registered(reconnect, resp) => [RegisteredEvent(id, resp, reconnect)]
    case Refused(code, message) => [ErrorEvent(id, code, message)]
    case Received(event) => CallbackFor(id, event)
    case _ => []
  }

  /** Everything its past calls for, in order. */
  function Due(id: nat, trace: seq<Act>): seq<PawnEvent> {
    if trace == [] then []
    else Due(id, trace[..|trace| - 1]) + CalledFor(id, trace[|trace| - 1])
  }

  function Pushes(trace: seq<Act>): seq<PawnEvent> {
    if trace == [] then []
    else Pushes(trace[..|trace| - 1]) + if trace[|trace| - 1].Pushed? then [trace[|trace| - 1].callback] else []
  }

  predicate PushesWhatIsDue(id: nat, st: Station) {
    Due(id, st.trace) == Pushes(st.trace) + Pending(st.pc)
  }

  lemma PushesSnoc(trace: seq<Act>, act: Act)
    ensures Pushes(trace + [act]) == Pushes(trace) + if act.Pushed? then [act.callback] else []
  {
    assert (trace + [act])[..|trace|] == trace;
  }

  lemma DueSnoc(id: nat, trace: seq<Act>, act: Act)
    ensures Due(id, trace + [act]) == Due(id, trace) + CalledFor(id, act)
  {
    assert (trace + [act])[..|trace|] == trace;
  }

  lemma MoveKeepsPushing(id: nat, st: Station, halted: bool, listed: bool, client: Client, act: StreamAct)
    requires Fitting(st, act) && StreamTrue(st.pc) && PushesWhatIsDue(id, st)
    ensures var move := Moving(id, st, halted, listed, client, act);
            && PushesWhatIsDue(id, move.st)
            && Pushes(move.st.trace) == Pushes(st.trace) + move.out
  {
    hide Due, Pushes, CallbackFor, Permanent, TypeOf, RegisteredEvent, ErrorEvent, Going;
    var later := Moving(id, st, halted, listed, client, act).st;
    if act.Go? {
      GoKeepsPushing(id, st, halted, listed, client);
    } else if later.trace != st.trace {
      DueSnoc(id, st.trace, later.trace[|st.trace|]);
      PushesSnoc(st.trace, later.trace[|st.trace|]);
    }
  }

  lemma GoKeepsPushing(id: nat, st: Station, halted: bool, listed: bool, client: Client)
    requires Fitting(st, Go) && StreamTrue(st.pc) && PushesWhatIsDue(id, st)
    ensures var move := Going(id, st, halted, listed, client);
            && PushesWhatIsDue(id, move.st)
            && Pushes(move.st.trace) == Pushes(st.trace) + move.out
  {
    hide Due, Pushes;
    var later := Going(id, st, halted, listed, client).st;
    if later.trace != st.trace {
      DueSnoc(id, st.trace, later.trace[|st.trace|]);
      PushesSnoc(st.trace, later.trace[|st.trace|]);
    }
  }

  /** In the events' own terms. */
  lemma CalledForSays(id: nat, act: Act)
    ensures act.Registered? ==>
              CalledFor(id, act) ==
              [PawnEvent(EvStationRegistered, id, 0, Truth(act.resp, Ascii("reRegistered"), false), [], [], [], [], [],
                         Str(act.resp, Ascii("streamUrl"), []), [], if act.reconnect then 1 else 0, 0)]
    ensures act.Refused? ==>
              CalledFor(id, act) == [PawnEvent(EvError, id, 0, false, [], [], [], [], [], act.code, act.message, 0, 0)]
    ensures act.Received? ==> CalledFor(id, act) == CallbackFor(id, act.event)
    ensures !act.Registered? && !act.Refused? && !act.Received? ==> CalledFor(id, act) == []
  {
  }

  /** A registered callback has the number 0 when it is the first, and 1 when it is not. */
  predicate ToldApart(events: seq<PawnEvent>) {
    forall k | 0 <= k < |events| && events[k].kind == EvStationRegistered ::
      events[k].num1 == if AnyRegistered(events[..k]) then 1 else 0
  }

  predicate AnyRegistered(events: seq<PawnEvent>) {
    exists j | 0 <= j < |events| :: events[j].kind == EvStationRegistered
  }

  lemma {:induction false} DueIsToldApart(id: nat, trace: seq<Act>)
    requires Alternate(Successes(trace))
    ensures ToldApart(Due(id, trace)) && (AnyRegistered(Due(id, trace)) <==> Successes(trace) != [])
  {
    hide ToldApart, AnyRegistered, CalledFor, Alternate;
    if trace == [] {
      NothingToTell();
    } else {
      var front, act := trace[..|trace| - 1], trace[|trace| - 1];
      MoreAlternate(Successes(front), act);
      DueIsToldApart(id, front);
      RegisteredIsCalledFor(id, act);
      OneMore(Due(id, front), CalledFor(id, act));
    }
  }

  lemma RegisteredIsCalledFor(id: nat, act: Act)
    ensures var called := CalledFor(id, act);
            && |called| <= 1 && (AnyRegistered(called) <==> act.Registered?)
            && (act.Registered? ==> called[0].num1 == if act.reconnect then 1 else 0)
  {
    hide CallbackFor, TypeOf;
    var called := CalledFor(id, act);
    if act.Received? {
      KindTells(id, act.event);
    }
    assert act.Registered? ==> called[0].kind == EvStationRegistered;
  }

  lemma FrontToldApart(front: seq<PawnEvent>, back: seq<PawnEvent>)
    requires ToldApart(front + back)
    ensures ToldApart(front)
  {
    var all := front + back;
    forall k | 0 <= k < |front| && front[k].kind == EvStationRegistered
      ensures front[k].num1 == if AnyRegistered(front[..k]) then 1 else 0
    {
      assert all[k] == front[k] && all[..k] == front[..k];
    }
  }

  lemma NothingToTell()
    ensures ToldApart([]) && !AnyRegistered([])
  {
  }

  lemma OneMore(events: seq<PawnEvent>, more: seq<PawnEvent>)
    requires ToldApart(events) && |more| <= 1
    requires AnyRegistered(more) ==> more[0].num1 == if AnyRegistered(events) then 1 else 0
    ensures ToldApart(events + more) && (AnyRegistered(events + more) <==> AnyRegistered(events) || AnyRegistered(more))
  {
    var all := events + more;
    assert forall j | 0 <= j < |events| :: all[j] == events[j] && all[..j] == events[..j];
    if more != [] {
      assert all[|events|] == more[0] && all[..|events|] == events;
    }
  }

  // ----- which failures are for good -----

  /** A call that fails with one of three codes ends the thread; after any other failure it goes on. */
  lemma CodesThatEnd(id: nat, st: Station, halted: bool, listed: bool, client: Client, code: bytes, message: bytes)
    requires st.pc.Registering? || st.pc.Opening?
    ensures var act := if st.pc.Registering? then Answered(Failure(code, message)) else OpenRefused(code, message);
            var move := Moving(id, st, halted, listed, client, act);
            move.out == [] && !move.asks
            && if st.pc.Opening? && st.stopping then
                 move.st == st.(pc := Ended, trace := st.trace + [Abandoned])
               else if code in [Ascii("unauthenticated"), Ascii("permission_denied"), Ascii("invalid_argument")] then
                 move.st == st.(pc := Refusing(ErrorEvent(id, code, message)),
                                trace := st.trace + [Refused(code, message)])
               else if st.pc.Registering? then
                 move.st == st.(pc := Retrying(st.pc.reconnect, st.pc.backoff),
                                trace := st.trace + [RegisterFailed(st.pc.backoff)])
               else
                 move.st == st.(pc := OpenFailed(st.pc.backoff),
                                trace := st.trace + [SubscribeFailed(st.pc.backoff)])
  {
    hide Ascii, ErrorEvent;
  }

  /** A worker that registers a station again stops trying for the same three, and for no other failure. */
  lemma CodesThatStopAWorker(s: State, w: nat, code: bytes, message: bytes)
    requires w < |s.workers| && s.workers[w].pc.Reregistering?
    ensures WorkerMay(s, w, Reregister(Failure(code, message))) <==>
              code in [Ascii("unauthenticated"), Ascii("permission_denied"), Ascii("invalid_argument")]
  {
    hide Ascii;
  }

  // ----- backoff -----

  function BackoffAt(k: nat): nat {
    if k == 0 then MIN_BACKOFF else NextBackoff(BackoffAt(k - 1))
  }

  function Pow2(k: nat): (p: nat)
    ensures p > 0
  {
    if k == 0 then 1 else 2 * Pow2(k - 1)
  }

  /** The k-th wait, counted from 0. */
  lemma {:induction false} BackoffIs(k: nat)
    ensures BackoffAt(k) == if 1000 * Pow2(k) < 30000 then 1000 * Pow2(k) else 30000
  {
    if k > 0 {
      BackoffIs(k - 1);
    }
  }

  /** How many attempts of the registration under way have failed. */
  function Retries(trace: seq<Act>): nat {
    if trace == [] then 0
    else if trace[|trace| - 1].RegisterFailed? then 1 + Retries(trace[..|trace| - 1])
    else if trace[|trace| - 1].SentRegister? then Retries(trace[..|trace| - 1])
    else 0
  }

  /** Each wait there was. */
  predicate WaitsFit(trace: seq<Act>) {
    forall j | 0 <= j < |trace| && trace[j].RegisterFailed? :: trace[j].wait == BackoffAt(Retries(trace[..j]))
  }

  lemma WaitsSnoc(trace: seq<Act>, act: Act)
    requires WaitsFit(trace) && (act.RegisterFailed? ==> act.wait == BackoffAt(Retries(trace)))
    ensures WaitsFit(trace + [act])
  {
    hide Retries, BackoffAt;
    RetriesSnoc(trace, act);
    assert trace[..|trace|] == trace;
  }

  predicate BacksOff(st: Station) {
    && WaitsFit(st.trace)
    && match st.pc
       case Starting => st.trace == []
       case Checking(_, backoff) => backoff == BackoffAt(Retries(st.trace))
       case Registering(_, backoff) => backoff == BackoffAt(Retries(st.trace))
       case Retrying(_, backoff) => Retries(st.trace) > 0 && backoff == BackoffAt(Retries(st.trace) - 1)
       case Reading => Retries(st.trace) == 0
       case Handling(_, _) => Retries(st.trace) == 0
       case Closing => Retries(st.trace) == 0
       case Refreshing(after) => after.Reading? ==> Retries(st.trace) == 0
       case Refreshed(after) => after.Reading? ==> Retries(st.trace) == 0
       case _ => true
  }

  lemma RetriesSnoc(trace: seq<Act>, act: Act)
    ensures Retries(trace + [act]) == if act.RegisterFailed? then 1 + Retries(trace)
                                      else if act.SentRegister? then Retries(trace) else 0
    ensures forall j | 0 <= j <= |trace| :: (trace + [act])[..j] == trace[..j]
    ensures Retries([]) == 0
  {
    assert (trace + [act])[..|trace|] == trace;
  }

  lemma MoveKeepsBackoff(id: nat, st: Station, halted: bool, listed: bool, client: Client, act: StreamAct)
    requires Fitting(st, act) && StreamTrue(st.pc) && BacksOff(st)
    ensures BacksOff(Moving(id, st, halted, listed, client, act).st)
  {
    hide Retries, CallbackFor, Permanent, TypeOf, RegisteredEvent, ErrorEvent, NextBackoff, Going, BackoffAt, WaitsFit;
    var later := Moving(id, st, halted, listed, client, act).st;
    if act.Go? {
      GoKeepsBackoff(id, st, halted, listed, client);
    } else if later.trace != st.trace {
      RetriesSnoc(st.trace, later.trace[|st.trace|]);
      WaitsSnoc(st.trace, later.trace[|st.trace|]);
    }
  }

  lemma GoKeepsBackoff(id: nat, st: Station, halted: bool, listed: bool, client: Client)
    requires Fitting(st, Go) && StreamTrue(st.pc) && BacksOff(st)
    ensures BacksOff(Going(id, st, halted, listed, client).st)
  {
    hide Retries, NextBackoff, WaitsFit;
    var later := Going(id, st, halted, listed, client).st;
    RetriesSnoc([], SentSubscribe);
    if later.trace != st.trace {
      RetriesSnoc(st.trace, later.trace[|st.trace|]);
      WaitsSnoc(st.trace, later.trace[|st.trace|]);
    }
  }

  /** How many attempts to subscribe have failed since the station was last registered; a reconnect counts as one. */
  function Reopenings(trace: seq<Act>): nat {
    if trace == [] then 0
    else
      var front := trace[..|trace| - 1];
      match trace[|trace| - 1]
      case SubscribeFailed(_) => 1 + Reopenings(front)
      case Registered(reconnect, _) => if reconnect then 1 else 0
      case _ => Reopenings(front)
  }

  lemma ReopeningsSnoc(trace: seq<Act>, act: Act)
    ensures Reopenings(trace + [act]) == if act.SubscribeFailed? then 1 + Reopenings(trace)
                                         else if act.Registered? then (if act.reconnect then 1 else 0)
                                         else Reopenings(trace)
    ensures forall j | 0 <= j <= |trace| :: (trace + [act])[..j] == trace[..j]
  {
    assert (trace + [act])[..|trace|] == trace;
  }

  predicate PausesFit(trace: seq<Act>) {
    && (forall j | 0 <= j < |trace| && trace[j].SubscribeFailed? ::
          trace[j].wait == BackoffAt(Reopenings(trace[..j])))
    && (forall j | 0 <= j < |trace| && trace[j].Settled? :: trace[j].wait == BackoffAt(0))
  }

  /** The wait a thread in front of its loop has before it. */
  predicate NextPauseFits(pc: StreamPc, n: nat) {
    match pc
    case Settling(backoff) => n == 1 && backoff == BackoffAt(0)
    case LoopTop(backoff) => backoff == BackoffAt(n)
    case _ => true
  }

  predicate Pauses(st: Station) {
    && PausesFit(st.trace)
    && match st.pc
       case Announcing(reconnect, _) => Reopenings(st.trace) == if reconnect then 1 else 0
       case Refreshing(after) => NextPauseFits(after, Reopenings(st.trace))
       case Refreshed(after) => NextPauseFits(after, Reopenings(st.trace))
       case Opening(backoff) => backoff == BackoffAt(Reopenings(st.trace))
       case OpenFailed(backoff) => Reopenings(st.trace) > 0 && backoff == BackoffAt(Reopenings(st.trace) - 1)
       case _ => NextPauseFits(st.pc, Reopenings(st.trace))
  }

  lemma PausesSnoc(trace: seq<Act>, act: Act)
    requires PausesFit(trace) && (act.SubscribeFailed? ==> act.wait == BackoffAt(Reopenings(trace)))
    requires act.Settled? ==> act.wait == BackoffAt(0)
    ensures PausesFit(trace + [act])
  {
    hide Reopenings, BackoffAt;
    ReopeningsSnoc(trace, act);
    assert trace[..|trace|] == trace;
  }

  lemma MoveKeepsPauses(id: nat, st: Station, halted: bool, listed: bool, client: Client, act: StreamAct)
    requires Fitting(st, act) && StreamTrue(st.pc) && Pauses(st)
    ensures Pauses(Moving(id, st, halted, listed, client, act).st)
  {
    hide Reopenings, CallbackFor, Permanent, TypeOf, RegisteredEvent, ErrorEvent, Going, BackoffAt, PausesFit;
    var later := Moving(id, st, halted, listed, client, act).st;
    if act.Go? {
      GoKeepsPauses(id, st, halted, listed, client);
    } else if later.trace != st.trace {
      ReopeningsSnoc(st.trace, later.trace[|st.trace|]);
      PausesSnoc(st.trace, later.trace[|st.trace|]);
    }
  }

  lemma GoKeepsPauses(id: nat, st: Station, halted: bool, listed: bool, client: Client)
    requires Fitting(st, Go) && StreamTrue(st.pc) && Pauses(st)
    ensures Pauses(Going(id, st, halted, listed, client).st)
  {
    hide Reopenings, NextBackoff, PausesFit;
    var later := Going(id, st, halted, listed, client).st;
    if later.trace != st.trace {
      ReopeningsSnoc(st.trace, later.trace[|st.trace|]);
      PausesSnoc(st.trace, later.trace[|st.trace|]);
    }
  }

  // ----- status refreshes -----

  predicate CallsForStatus(act: Act) {
    act.Registered? || (act.Received? && TypeOf(act.event) in {TrackStarted, TrackEnded})
  }

  /** The registrations and track changes that no request for the status has followed yet. */
  function Owed(trace: seq<Act>): int {
    if trace == [] then 0
    else
      var last := trace[|trace| - 1];
      Owed(trace[..|trace| - 1]) + if CallsForStatus(last) then 1 else if last.Asked? then -1 else 0
  }

  lemma OwedSnoc(trace: seq<Act>, act: Act)
    ensures Owed(trace + [act]) == Owed(trace) + if CallsForStatus(act) then 1 else if act.Asked? then -1 else 0
    ensures forall j | 0 <= j <= |trace| :: (trace + [act])[..j] == trace[..j]
  {
    assert (trace + [act])[..|trace|] == trace;
  }

  /** The status is asked for once for each of them, before anything but the push of their callback. */
  predicate AsksFit(trace: seq<Act>) {
    forall j | 0 <= j < |trace| ::
      if trace[j].Asked? then Owed(trace[..j]) == 1
      else Owed(trace[..j]) == 0 || (Owed(trace[..j]) == 1 && trace[j].Pushed?)
  }

  predicate AsksInTime(st: Station) {
    && AsksFit(st.trace)
    && Owed(st.trace) == match st.pc
                         case Announcing(_, _) => 1
                         case Refreshing(_) => 1
                         case Handling(_, refresh) => if refresh then 1 else 0
                         case _ => 0
  }

  lemma AsksSnoc(trace: seq<Act>, act: Act)
    requires AsksFit(trace)
    requires if act.Asked? then Owed(trace) == 1 else Owed(trace) == 0 || (Owed(trace) == 1 && act.Pushed?)
    ensures AsksFit(trace + [act])
  {
    hide Owed;
    OwedSnoc(trace, act);
    assert trace[..|trace|] == trace;
  }

  lemma MoveKeepsAsking(id: nat, st: Station, halted: bool, listed: bool, client: Client, act: StreamAct)
    requires Fitting(st, act) && StreamTrue(st.pc) && AsksInTime(st)
    ensures AsksInTime(Moving(id, st, halted, listed, client, act).st)
  {
    hide Owed, CallbackFor, Permanent, TypeOf, RegisteredEvent, ErrorEvent, Going, AsksFit;
    var later := Moving(id, st, halted, listed, client, act).st;
    if act.Go? {
      GoKeepsAsking(id, st, halted, listed, client);
    } else if later.trace != st.trace {
      OwedSnoc(st.trace, later.trace[|st.trace|]);
      AsksSnoc(st.trace, later.trace[|st.trace|]);
    }
  }

  lemma GoKeepsAsking(id: nat, st: Station, halted: bool, listed: bool, client: Client)
    requires Fitting(st, Go) && StreamTrue(st.pc) && AsksInTime(st)
    ensures AsksInTime(Going(id, st, halted, listed, client).st)
  {
    hide Owed, NextBackoff, AsksFit;
    var later := Going(id, st, halted, listed, client).st;
    if later.trace != st.trace {
      OwedSnoc(st.trace, later.trace[|st.trace|]);
      AsksSnoc(st.trace, later.trace[|st.trace|]);
    }
  }

  // ----- one stream at a time -----

  predicate Connected(trace: seq<Act>) {
    trace != []
    && var last := trace[|trace| - 1];
       last.Subscribed? || (!last.Disconnected? && Connected(trace[..|trace| - 1]))
  }

  lemma ConnectedSnoc(trace: seq<Act>, act: Act)
    ensures Connected(trace + [act]) <==> act.Subscribed? || (!act.Disconnected? && Connected(trace))
    ensures forall j | 0 <= j <= |trace| :: (trace + [act])[..j] == trace[..j]
  {
    assert (trace + [act])[..|trace|] == trace;
  }

  /** Whether `act` may come next: events are heard on a stream only, calls made without one, and when it is lost the
      station is registered again before anything else. */
  predicate LinkAllows(trace: seq<Act>, act: Act) {
    && (act.Received? || act.Disconnected? ==> Connected(trace))
    && (act.SentRegister? || act.SentSubscribe? || act.Settled? ==> !Connected(trace))
    && (trace != [] && trace[|trace| - 1].Disconnected? ==> act == SentRegister(true) || act == Unregistered)
  }

  predicate LinkFits(trace: seq<Act>) {
    forall j | 0 <= j < |trace| :: LinkAllows(trace[..j], trace[j])
  }

  predicate Links(st: Station) {
    && LinkFits(st.trace)
    && (Connected(st.trace) <==> match st.pc
                                 case Reading => true
                                 case Handling(_, _) => true
                                 case Refreshing(after) => after.Reading?
                                 case Refreshed(after) => after.Reading?
                                 case _ => false)
    && (st.trace != [] && st.trace[|st.trace| - 1].Disconnected? ==>
          st.pc == Closing || st.pc == Ended || (st.pc.Checking? && st.pc.reconnect))
  }

  lemma LinkSnoc(trace: seq<Act>, act: Act)
    requires LinkFits(trace) && LinkAllows(trace, act)
    ensures LinkFits(trace + [act])
  {
    hide LinkAllows;
    var all := trace + [act];
    assert forall j | 0 <= j <= |trace| :: all[..j] == trace[..j];
    assert trace[..|trace|] == trace;
  }

  lemma MoveKeepsLink(id: nat, st: Station, halted: bool, listed: bool, client: Client, act: StreamAct)
    requires Fitting(st, act) && StreamTrue(st.pc) && Links(st)
    ensures Links(Moving(id, st, halted, listed, client, act).st)
  {
    hide Connected, CallbackFor, Permanent, TypeOf, RegisteredEvent, ErrorEvent, Going, LinkFits;
    var later := Moving(id, st, halted, listed, client, act).st;
    if act.Go? {
      GoKeepsLink(id, st, halted, listed, client);
    } else if later.trace != st.trace {
      ConnectedSnoc(st.trace, later.trace[|st.trace|]);
      LinkSnoc(st.trace, later.trace[|st.trace|]);
    }
  }

  lemma GoKeepsLink(id: nat, st: Station, halted: bool, listed: bool, client: Client)
    requires Fitting(st, Go) && StreamTrue(st.pc) && Links(st)
    ensures Links(Going(id, st, halted, listed, client).st)
  {
    hide Connected, NextBackoff, LinkFits;
    var later := Going(id, st, halted, listed, client).st;
    if later.trace != st.trace {
      ConnectedSnoc(st.trace, later.trace[|st.trace|]);
      LinkSnoc(st.trace, later.trace[|st.trace|]);
    }
  }

  // ----- a station over its life -----

  predicate StationFits(id: nat, st: Station) {
    && InOrder(st) && Closes(st.pc, st.trace) && PushesWhatIsDue(id, st) && BacksOff(st) && Pauses(st)
    && AsksInTime(st) && Links(st)
  }

  lemma MoveKeepsFit(id: nat, st: Station, halted: bool, listed: bool, client: Client, act: StreamAct)
    requires Fitting(st, act) && StationFits(id, st)
    ensures StationFits(id, Moving(id, st, halted, listed, client, act).st)
  {
    hide Moving, Fitting, Closes, PushesWhatIsDue, BacksOff, Pauses, AsksInTime, Links;
    MoveKeepsOrder(id, st, halted, listed, client, act);
    MoveKeepsClosing(id, st, halted, listed, client, act);
    MoveKeepsPushing(id, st, halted, listed, client, act);
    MoveKeepsBackoff(id, st, halted, listed, client, act);
    MoveKeepsPauses(id, st, halted, listed, client, act);
    MoveKeepsAsking(id, st, halted, listed, client, act);
    MoveKeepsLink(id, st, halted, listed, client, act);
  }

  lemma NewStationFits(id: nat, st: Station)
    requires st.pc == Starting && st.trace == []
    ensures StationFits(id, st)
  {
  }

  /** The station of an ended thread is unregistered. */
  lemma UnregisterKeepsFit(id: nat, st: Station)
    requires StationFits(id, st) && st.pc == Ended && Unregistered !in st.trace
    ensures StationFits(id, st.(trace := st.trace + [Unregistered]))
    ensures Pushes(st.trace + [Unregistered]) == Pushes(st.trace)
  {
    hide Successes, Due, Pushes, Retries, Reopenings, Owed, BackoffAt, Connected;
    SuccessesSnoc(st.trace, Unregistered);
    DueSnoc(id, st.trace, Unregistered);
    PushesSnoc(st.trace, Unregistered);
    WaitsSnoc(st.trace, Unregistered);
    PausesSnoc(st.trace, Unregistered);
    OwedSnoc(st.trace, Unregistered);
    AsksSnoc(st.trace, Unregistered);
    ConnectedSnoc(st.trace, Unregistered);
    LinkSnoc(st.trace, Unregistered);
  }

  lemma MoveSealed(id: nat, st: Station, halted: bool, listed: bool, client: Client, act: StreamAct)
    requires Fitting(st, act)
    ensures Unregistered in Moving(id, st, halted, listed, client, act).st.trace ==> Unregistered in st.trace
    ensures st.pc != Ended
  {
    hide CallbackFor, Permanent, TypeOf, RegisteredEvent, ErrorEvent;
  }
}
