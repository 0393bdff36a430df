/**
 The cross-thread wakeup of src/client/desktop.c, over every interleaving of any number of
 zc_desktop_wake callers with the user-interface thread.

 A wake is two atomic steps: it exchanges the flag, and the one that finds the flag down pushes an
 event. A wait is three: it looks at the flag, sleeps for an event if the flag is down, and
 exchanges the flag. Event pushes are assumed to succeed, and the wake event to be registered.
 */
module Wakeup {
  import opened Common

  /** Where the user-interface thread is: in the application, asleep, or about to read the flag. */
  datatype Ui = Running | Sleeping | Leaving

  datatype State = State(
    flag: bool,
    events: nat,          // wake events in the event queue
    ui: Ui,
    pushing: set<nat>,    // wakes between their exchange and their push
    unreported: set<nat>, // wakes whose exchange no wait has answered yet
    raiser: nat,          // the wake that last raised the flag
    started: set<nat>)

  datatype Step =
    | Exchange(wake: nat)       // SDL_SetAtomicInt(&wake_pending, 1)
    | Push(wake: nat)           // SDL_PushEvent
    | Look                      // SDL_GetAtomicInt
    | WokenByEvent              // SDL_WaitEventTimeout returns for a queued wake event
    | WokenByOther              // ... or for some other event
    | TimedOut                  // ... or its whole timeout went by
    | Report                    // SDL_SetAtomicInt(&wake_pending, 0)
    | Consume(left: nat)        // the application takes events off the queue

  const START := State(false, 0, Running, {}, {}, 0, {})

  predicate Enabled(s: State, step: Step) {
    match step
    case Exchange(w) => w !in s.started
    case Push(w) => w in s.pushing
    case Look => s.ui.Running?
    case WokenByEvent => s.ui.Sleeping? && s.events > 0
    case WokenByOther => s.ui.Sleeping?
    case TimedOut => s.ui.Sleeping? && s.events == 0
    case Report => s.ui.Leaving?
    case Consume(left) => s.ui.Running? && left <= s.events
  }

  function Next(s: State, step: Step): State
    requires Enabled(s, step)
  {
    match step
    case Exchange(w) =>
      var s1 := s.(flag := true, unreported := s.unreported + {w}, started := s.started + {w});
      if s.flag then s1 else s1.(pushing := s.pushing + {w}, raiser := w)
    case Push(w) => s.(pushing := s.pushing - {w}, events := s.events + 1)
    case Look => s.(ui := if s.flag then Leaving else Sleeping)
    case WokenByEvent => s.(ui := Leaving)
    case WokenByOther => s.(ui := Leaving)
    case TimedOut => s.(ui := Leaving)
    case Report => s.(ui := Running, flag := false, unreported := {})
    case Consume(left) => s.(events := left)
  }

  /** What zc_desktop_wait returns at its last step. */
  function Answer(s: State): bool {
    s.flag
  }

  /** A wake has returned to its caller. */
  predicate Completed(s: State, w: nat) {
    w in s.started && w !in s.pushing
  }

  /** The state some steps lead to, if they can be taken in that order. */
  ghost function Run(s: State, steps: seq<Step>): Option<State>
    decreases |steps|
  {
    if steps == [] then Some(s)
    else if Enabled(s, steps[0]) then Run(Next(s, steps[0]), steps[1..]) else None
  }

  ghost predicate Reachable(s: State) {
    exists steps :: Run(START, steps) == Some(s)
  }

  /** The flag stands for the unreported wakes; a sleeper with the flag up has an event coming. */
  predicate Inv(s: State) {
    && (s.flag <==> s.unreported != {})
    && s.unreported <= s.started
    && s.pushing <= s.started
    && (s.flag ==> s.raiser in s.unreported)
    && (s.flag && s.ui.Sleeping? && s.events == 0 ==> s.raiser in s.pushing)
  }

  lemma {:induction false} RunKeepsInv(s: State, steps: seq<Step>)
    requires Inv(s) && Run(s, steps).Some?
    ensures Inv(Run(s, steps).value)
    decreases |steps|
  {
    if steps != [] {
      if steps[0].Exchange? {
        assert steps[0].wake in Next(s, steps[0]).unreported;
      }
      RunKeepsInv(Next(s, steps[0]), steps[1..]);
    }
  }

  lemma ReachableInv(s: State)
    requires Reachable(s)
    ensures Inv(s)
  {
    var steps :| Run(START, steps) == Some(s);
    RunKeepsInv(START, steps);
  }

  lemma {:induction false} StaysUnreported(s: State, steps: seq<Step>, w: nat)
    requires w in s.unreported && Run(s, steps).Some? && Report !in steps
    ensures w in Run(s, steps).value.unreported
    decreases |steps|
  {
    if steps != [] {
      StaysUnreported(Next(s, steps[0]), steps[1..], w);
    }
  }

  /**
   No wakeup is lost: whatever happens after a wake raised or found the flag, the first wait to end
   answers yes and reports it; and a wait that answers yes had a wake to report.
   */
  lemma NoWakeIsLost(s: State, w: nat, steps: seq<Step>)
    requires Reachable(s) && w in s.unreported
    requires Run(s, steps).Some? && Report !in steps && Enabled(Run(s, steps).value, Report)
    ensures var t := Run(s, steps).value; Answer(t) && w in t.unreported && w !in Next(t, Report).unreported
  {
    ReachableInv(s);
    RunKeepsInv(s, steps);
    StaysUnreported(s, steps, w);
  }

  lemma AnswersOnlyToWakes(s: State)
    requires Reachable(s) && Answer(s)
    ensures exists w :: w in s.unreported && w in s.started
  {
    ReachableInv(s);
  }

  /** Once the flag is up, a wait that starts does not sleep at all. */
  lemma NoSleepAfterLook(s: State)
    requires Reachable(s) && s.ui.Running? && s.unreported != {}
    ensures Next(s, Look).ui.Leaving?
  {
    ReachableInv(s);
  }

  /**
   A sleeper can only run out its timeout over an unreported wake while the wake that raised the
   flag has yet to push its event. Once no push is under way, the event is there.
   */
  lemma SleepsOnlyBehindAStalledPush(s: State)
    requires Reachable(s) && s.ui.Sleeping? && s.unreported != {}
    ensures Enabled(s, TimedOut) <==> s.raiser in s.pushing && s.events == 0
    ensures s.pushing == {} ==> Enabled(s, WokenByEvent) && !Enabled(s, TimedOut)
  {
    ReachableInv(s);
  }

  /** A completed wake can wait out a whole timeout: here 2 is coalesced into 1, which has stalled. */
  lemma CompletedWakeCanWaitOutATimeout()
    ensures exists s :: Reachable(s) && Completed(s, 2) && 2 in s.unreported && Enabled(s, TimedOut)
  {
    var s1 := Next(START, Look);
    var s2 := Next(s1, Exchange(1));
    var s3 := Next(s2, Exchange(2));
    assert Run(s3, []) == Some(s3);
    assert Run(s2, [Exchange(2)]) == Some(s3);
    assert Run(s1, [Exchange(1), Exchange(2)]) == Some(s3) by {
      assert [Exchange(1), Exchange(2)][1..] == [Exchange(2)];
    }
    var stall := [Look, Exchange(1), Exchange(2)];
    assert stall[1..] == [Exchange(1), Exchange(2)];
    assert Run(START, stall) == Some(s3);
  }

  /** Even that wait answers yes: the timeout delays the report and does not lose it. */
  lemma TimeoutStillReports(s: State)
    requires Reachable(s) && s.unreported != {} && Enabled(s, TimedOut)
    ensures Answer(Next(s, TimedOut))
  {
    ReachableInv(s);
  }
}
