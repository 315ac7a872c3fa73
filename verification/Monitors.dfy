/**
 A wait on a condition variable for an atomic flag, and the thread that sets the flag and notifies. A station's
 backoff is one: WakeBackoff notifies with the mutex held. The status poller's interval is another: StopWorkers
 notifies without it. Any number of threads may wait, as many times as they like.
 */
module Monitors {
  /** `Evaluating` and `Parking` hold the mutex: before the flag is read, and after it was found false.
      `last`: the time is up, so that this evaluation ends the wait either way. */
  datatype Waiter = Away | Wanting(last: bool) | Evaluating(last: bool) | Parking | Parked

  datatype Signaller = Working | FlagSet | Notified

  datatype State = State(flag: bool, waiters: seq<Waiter>, signaller: Signaller)

  datatype Step =
    | Arrive(w: nat)
    | Lock(w: nat)
    | Evaluate(w: nat)
    | Park(w: nat)
    | Wake(w: nat)
    | Expire(w: nat)
    | SetFlag
    | Notify

  predicate Holds(w: Waiter) {
    w.Evaluating? || w == Parking
  }

  predicate MutexFree(s: State) {
    forall w | w in s.waiters :: !Holds(w)
  }

  predicate At(s: State, w: nat, waiter: Waiter) {
    w < |s.waiters| && s.waiters[w] == waiter
  }

  /** `careful`: the notifying thread holds the mutex while it notifies. */
  predicate Enabled(s: State, step: Step, careful: bool) {
    match step
    case Arrive(w) => At(s, w, Away)
    case Lock(w) => w < |s.waiters| && s.waiters[w].Wanting? && MutexFree(s)
    case Evaluate(w) => w < |s.waiters| && s.waiters[w].Evaluating?
    case Park(w) => At(s, w, Parking)
    case Wake(w) => At(s, w, Parked)
    case Expire(w) => At(s, w, Parked)
    case SetFlag => s.signaller == Working
    case Notify => s.signaller == FlagSet && (careful ==> MutexFree(s))
  }

  function Put(s: State, w: nat, waiter: Waiter): State
    requires w < |s.waiters|
  {
    s.(waiters := s.waiters[w := waiter])
  }

  function Do(s: State, step: Step, careful: bool): State
    requires Enabled(s, step, careful)
  {
    match step
    case Arrive(w) => Put(s, w, Wanting(false))
    case Lock(w) => Put(s, w, Evaluating(s.waiters[w].last))
    case Evaluate(w) => Put(s, w, if s.flag || s.waiters[w].last then Away else Parking)
    case Park(w) => Put(s, w, Parked)
    case Wake(w) => Put(s, w, Wanting(false))
    case Expire(w) => Put(s, w, Wanting(true))
    case SetFlag => s.(flag := true, signaller := FlagSet)
    case Notify =>
      s.(signaller := Notified,
         waiters := seq(|s.waiters|, i requires 0 <= i < |s.waiters| =>
           if s.waiters[i] == Parked then Wanting(false) else s.waiters[i]))
  }

  /** The states of a run that takes these steps. */
  ghost predicate Run(states: seq<State>, steps: seq<Step>, careful: bool) {
    && |states| == |steps| + 1
    && !states[0].flag && states[0].signaller == Working && (forall w | w in states[0].waiters :: w == Away)
    && forall i | 0 <= i < |steps| ::
         Enabled(states[i], steps[i], careful) && states[i + 1] == Do(states[i], steps[i], careful)
  }

  predicate Asleep(s: State, w: nat) {
    w < |s.waiters| && (s.waiters[w] == Parked || s.waiters[w] == Parking)
  }

  predicate Awake(s: State) {
    && (s.signaller != Working ==> s.flag)
    && (s.signaller == Notified ==> forall w | 0 <= w < |s.waiters| :: !Asleep(s, w))
  }

  lemma {:induction false} StaysAwake(states: seq<State>, steps: seq<Step>, i: nat)
    requires Run(states, steps, true) && i < |states|
    ensures Awake(states[i])
  {
    if i > 0 {
      StaysAwake(states, steps, i - 1);
      StepKeepsAwake(states[i - 1], steps[i - 1]);
    }
  }

  lemma StepKeepsAwake(s: State, step: Step)
    requires Awake(s) && Enabled(s, step, true)
    ensures Awake(Do(s, step, true))
  {
    if step == Notify {
      assert forall w | 0 <= w < |s.waiters| :: s.waiters[w] in s.waiters;
    } else if s.signaller == Notified {
      assert step.Park? ==> Asleep(s, step.w);
      assert forall w | 0 <= w < |s.waiters| :: Asleep(Do(s, step, true), w) ==> Asleep(s, w);
    }
  }

  /** No thread stays parked, or goes on to park, once the flag is set and the notification is out. */
  ghost predicate NoWakeUpIsLost(careful: bool) {
    forall states: seq<State>, steps: seq<Step>, i: nat, w: nat
      | Run(states, steps, careful) && i < |states| && w < |states[i].waiters| ::
      states[i].signaller == Notified ==> !Asleep(states[i], w)
  }

  /** That is so exactly when the mutex is held for the notification: of a station's backoff, not of the poller's
      interval, which can last to its end after StopWorkers has notified. */
  lemma WakeUpsAreSafeWithTheMutex(careful: bool)
    ensures NoWakeUpIsLost(careful) <==> careful
  {
    if careful {
      forall states: seq<State>, steps: seq<Step>, i: nat, w: nat
        | Run(states, steps, careful) && i < |states| && w < |states[i].waiters|
        ensures states[i].signaller == Notified ==> !Asleep(states[i], w)
      {
        StaysAwake(states, steps, i);
      }
    } else {
      var states, steps := SleepsThrough();
      assert Run(states, steps, careful) && states[6].signaller == Notified && |states[6].waiters| == 1;
      assert Asleep(states[6], 0);
    }
  }

  /** The flag is found false; it is set and the notification sent before the thread is parked. */
  lemma SleepsThrough() returns (states: seq<State>, steps: seq<Step>)
    ensures Run(states, steps, false) && |states| == 7
    ensures states[6].signaller == Notified && |states[6].waiters| == 1 && states[6].waiters[0] == Parked
  {
    hide Run;
    states := Idle([Away]);
    steps := [];
    states, steps := Extend(states, steps, Arrive(0));
    states, steps := Extend(states, steps, Lock(0));
    states, steps := Extend(states, steps, Evaluate(0));
    states, steps := Extend(states, steps, SetFlag);
    states, steps := Extend(states, steps, Notify);
    states, steps := Extend(states, steps, Park(0));
  }

  lemma Idle(waiters: seq<Waiter>) returns (states: seq<State>)
    requires forall w | w in waiters :: w == Away
    ensures Run(states, [], false) && states == [State(false, waiters, Working)]
  {
    states := [State(false, waiters, Working)];
  }

  /** A run goes on by any step that is enabled. */
  lemma Extend(before: seq<State>, taken: seq<Step>, step: Step) returns (states: seq<State>, steps: seq<Step>)
    requires |before| == |taken| + 1 && Run(before, taken, false) && Enabled(before[|taken|], step, false)
    ensures Run(states, steps, false) && |states| == |before| + 1 == |steps| + 1
    ensures states[|before|] == Do(before[|taken|], step, false)
  {
    hide Enabled, Do;
    states, steps := before + [Do(before[|taken|], step, false)], taken + [step];
  }
}
