/**
 * The inactivity auto-logout hook of the mobile app.
 *
 * The hook remembers the last lifecycle status it saw. When the app leaves
 * the foreground it persists the current epoch-millis under one storage key;
 * when the app comes back from `inactive` or `background` (and once when the
 * hook mounts) it runs an evaluation pass: read the key, log out when more
 * than five minutes have passed, then delete the key. Storage errors are
 * caught and swallowed.
 *
 * The storage cell under the key is an `Option<int>`, the clock is the input
 * `now`, a call that throws (a storage operation or the logout callback) is
 * the input `fault`, and the calls of the logout callback are counted.
 */
module InactivityLogout {
  import opened Wrappers

  /** Five minutes in milliseconds. */
  const TimeoutDuration: int := 5 * 60 * 1000

  /** The lifecycle statuses the host runtime reports. */
  datatype AppStatus = Active | Inactive | Background | Unknown | Extension

  /** The status test `/inactive|background/`. */
  predicate IsAway(s: AppStatus) {
    s == Inactive || s == Background
  }

  /** A return to the foreground: previous status away, next status active. */
  predicate ReturnsToForeground(prev: AppStatus, next: AppStatus) {
    IsAway(prev) && next == Active
  }

  /**
   * Which call, if any, throws during one handler run: one of the three
   * storage operations, or the logout callback. Every throw is caught by the
   * handler, which then stops.
   */
  datatype Fault = NoFault | GetFails | SetFails | RemoveFails | LogoutThrows

  /** What one evaluation pass does: whether it logged out, and the cell afterwards. */
  datatype PassResult = PassResult(loggedOut: bool, stored: Option<int>)

  /**
   * One evaluation pass (`checkInactiveTime`). A failing read or an absent
   * key end the pass with nothing done; otherwise the pass logs out when the
   * time away is strictly greater than the timeout and then removes the key.
   * The key stays when the removal fails, and when the logout callback throws,
   * since the throw skips the removal.
   */
  function EvaluationPass(stored: Option<int>, now: int, fault: Fault): PassResult {
    if fault == GetFails || stored.None? then PassResult(false, stored)
    else
      var timeDifference := now - stored.value;
      var loggedOut := timeDifference > TimeoutDuration;
      var removed := fault != RemoveFails && !(loggedOut && fault == LogoutThrows);
      PassResult(loggedOut, if removed then None else stored)
  }

  /** The cell after `setBackgroundTimestamp`: the current time, unless the write fails. */
  function BackgroundWrite(stored: Option<int>, now: int, fault: Fault): Option<int> {
    if fault == SetFails then stored else Some(now)
  }

  /** The hook's observable state: remembered status, storage cell, logout calls so far. */
  datatype Monitor = Monitor(appState: AppStatus, stored: Option<int>, logouts: nat)

  /** One lifecycle change event, with the time it is handled and the storage fault it meets. */
  datatype Event = Event(next: AppStatus, now: int, fault: Fault)

  /** The monitor after one evaluation pass. */
  function AfterPass(m: Monitor, now: int, fault: Fault): Monitor {
    var r := EvaluationPass(m.stored, now, fault);
    m.(stored := r.stored, logouts := m.logouts + if r.loggedOut then 1 else 0)
  }

  /** The monitor after `handleAppStateChange(e.next)`. */
  function Step(m: Monitor, e: Event): Monitor {
    var handled :=
      if ReturnsToForeground(m.appState, e.next) then AfterPass(m, e.now, e.fault)
      else if IsAway(e.next) then m.(stored := BackgroundWrite(m.stored, e.now, e.fault))
      else m;
    handled.(appState := e.next)
  }

  /** The monitor right after mounting: the initial status, the persisted cell, one pass. */
  function OnMount(initial: AppStatus, persisted: Option<int>, now: int, fault: Fault): Monitor {
    AfterPass(Monitor(initial, persisted, 0), now, fault)
  }

  /** The monitor after a series of change events, handled one after another. */
  function Run(m: Monitor, events: seq<Event>): Monitor
    decreases |events|
  {
    if events == [] then m else Run(Step(m, events[0]), events[1..])
  }

  /** The number of returns to the foreground in a series of events. */
  function ForegroundReturns(prev: AppStatus, events: seq<Event>): nat
    decreases |events|
  {
    if events == [] then 0
    else (if ReturnsToForeground(prev, events[0].next) then 1 else 0)
         + ForegroundReturns(events[0].next, events[1..])
  }

  /** The hook instance: the remembered status ref, the storage cell and the logout count. */
  class InactivityMonitor {
    var appState: AppStatus
    var stored: Option<int>
    var logouts: nat

    function Snapshot(): Monitor
      reads this
    {
      Monitor(appState, stored, logouts)
    }

    /** Mounting: remember the current status and run one evaluation pass. */
    constructor Mount(initial: AppStatus, persisted: Option<int>, now: int, fault: Fault)
      ensures Snapshot() == OnMount(initial, persisted, now, fault)
    {
      appState := initial;
      stored := persisted;
      logouts := 0;
      new;
      CheckInactiveTime(now, fault);
    }

    method CheckInactiveTime(now: int, fault: Fault)
      modifies this
      ensures Snapshot() == AfterPass(old(Snapshot()), now, fault)
    {
      if fault == GetFails {
        return;
      }
      if stored.None? {
        return;
      }
      var lastActiveTime := stored.value;
      var timeDifference := now - lastActiveTime;
      if timeDifference > TimeoutDuration {
        logouts := logouts + 1;
        if fault == LogoutThrows {
          return;
        }
      }
      if fault != RemoveFails {
        stored := None;
      }
    }

    method SetBackgroundTimestamp(now: int, fault: Fault)
      modifies this`stored
      ensures stored == BackgroundWrite(old(stored), now, fault)
    {
      if fault != SetFails {
        stored := Some(now);
      }
    }

    method HandleAppStateChange(next: AppStatus, now: int, fault: Fault)
      modifies this
      ensures Snapshot() == Step(old(Snapshot()), Event(next, now, fault))
    {
      if IsAway(appState) && next == Active {
        CheckInactiveTime(now, fault);
      } else if IsAway(next) {
        SetBackgroundTimestamp(now, fault);
      }
      appState := next;
    }
  }

  // ---------------------------------------------------------------------
  // One event

  /** A return to the foreground runs exactly one evaluation pass. */
  lemma ForegroundReturnRunsOnePass(m: Monitor, e: Event)
    requires ReturnsToForeground(m.appState, e.next)
    ensures Step(m, e).stored == EvaluationPass(m.stored, e.now, e.fault).stored
    ensures Step(m, e).logouts == m.logouts + if EvaluationPass(m.stored, e.now, e.fault).loggedOut then 1 else 0
  {
  }

  /**
   * Going to `inactive` or `background` (from any status, `inactive` included)
   * overwrites the cell with the current time and never logs out.
   */
  lemma LeavingForegroundStampsTime(m: Monitor, e: Event)
    requires IsAway(e.next)
    ensures Step(m, e).logouts == m.logouts
    ensures e.fault != SetFails ==> Step(m, e).stored == Some(e.now)
    ensures e.fault == SetFails ==> Step(m, e).stored == m.stored
  {
  }

  /** After every event the remembered status is the new one. */
  lemma RemembersNextStatus(m: Monitor, e: Event)
    ensures Step(m, e).appState == e.next
  {
  }

  /** An event that neither returns to nor leaves the foreground (`active` to `active`) touches neither storage nor logout. */
  lemma OtherEventsAreInert(m: Monitor, e: Event)
    requires !ReturnsToForeground(m.appState, e.next) && !IsAway(e.next)
    ensures Step(m, e) == m.(appState := e.next)
  {
  }

  // ---------------------------------------------------------------------
  // One evaluation pass

  /** An absent key: no logout, storage unchanged. */
  lemma AbsentKeyIsNoOp(now: int, fault: Fault)
    ensures EvaluationPass(None, now, fault) == PassResult(false, None)
  {
  }

  /** Logout happens iff the stored time could be read and the time away is strictly over five minutes. */
  lemma LogoutIffOverTimeout(stored: Option<int>, now: int, fault: Fault)
    ensures EvaluationPass(stored, now, fault).loggedOut
        <==> fault != GetFails && stored.Some? && now - stored.value > 300000
    ensures stored.Some? && now - stored.value == 300000 ==> !EvaluationPass(stored, now, fault).loggedOut
  {
  }

  /** A pass that read a timestamp leaves the key absent, logout or not, so a second pass does nothing. */
  lemma PassConsumesTimestamp(stored: Option<int>, now: int, later: int, fault: Fault)
    requires fault == NoFault
    ensures EvaluationPass(stored, now, fault).stored == None
    ensures EvaluationPass(EvaluationPass(stored, now, fault).stored, later, fault) == PassResult(false, None)
  {
  }

  /**
   * What one failing call does, within its own handler run: a failing read
   * logs nobody out and changes nothing; a failing write or removal leaves the
   * cell as it was; a removal that fails comes after the comparison, so the
   * logout decision stands. A logout callback that throws has still been
   * called, but the key it should have removed stays.
   * Across later events these effects do not stay contained: see
   * `StaleTimestampAfterStorageFailures`.
   */
  lemma FailingCallEffects(stored: Option<int>, now: int)
    ensures EvaluationPass(stored, now, GetFails) == PassResult(false, stored)
    ensures EvaluationPass(stored, now, RemoveFails).stored == stored
    ensures EvaluationPass(stored, now, RemoveFails).loggedOut == EvaluationPass(stored, now, NoFault).loggedOut
    ensures BackgroundWrite(stored, now, SetFails) == stored
    ensures EvaluationPass(stored, now, LogoutThrows).loggedOut == EvaluationPass(stored, now, NoFault).loggedOut
    ensures EvaluationPass(stored, now, LogoutThrows).loggedOut ==> EvaluationPass(stored, now, LogoutThrows).stored == stored
  {
  }

  /** Mounting runs exactly one evaluation pass, before any change event. */
  lemma MountRunsOnePass(initial: AppStatus, persisted: Option<int>, now: int, fault: Fault)
    ensures OnMount(initial, persisted, now, fault).appState == initial
    ensures OnMount(initial, persisted, now, fault).stored == EvaluationPass(persisted, now, fault).stored
    ensures OnMount(initial, persisted, now, fault).logouts == if EvaluationPass(persisted, now, fault).loggedOut then 1 else 0
  {
  }

  // ---------------------------------------------------------------------
  // Series of events

  /** The logout callback runs at most once per return to the foreground. */
  lemma {:induction false} LogoutsBoundedByReturns(m: Monitor, events: seq<Event>)
    ensures Run(m, events).logouts <= m.logouts + ForegroundReturns(m.appState, events)
    decreases |events|
  {
    if events != [] {
      LogoutsBoundedByReturns(Step(m, events[0]), events[1..]);
    }
  }

  /** The cell holds nothing, or a time no earlier than `t0`. */
  predicate StampedSince(stored: Option<int>, t0: int) {
    stored.None? || stored.value >= t0
  }

  /**
   * Flapping between foreground and background within the timeout never logs
   * out: when every event is handled within five minutes of `t0`, and the cell
   * holds no time before `t0`, the logout count does not move.
   */
  lemma {:induction false} FlappingWithinTimeoutNeverLogsOut(m: Monitor, events: seq<Event>, t0: int)
    requires StampedSince(m.stored, t0)
    requires forall i :: 0 <= i < |events| ==> t0 <= events[i].now <= t0 + TimeoutDuration
    ensures Run(m, events).logouts == m.logouts
    ensures StampedSince(Run(m, events).stored, t0)
    decreases |events|
  {
    if events != [] {
      var next := Step(m, events[0]);
      assert StampedSince(next.stored, t0) && next.logouts == m.logouts;
      assert forall i :: 0 <= i < |events[1..]| ==> events[1..][i] == events[i + 1];
      FlappingWithinTimeoutNeverLogsOut(next, events[1..], t0);
    }
  }

  /** An app that never goes to `inactive` or `background` and has no stored time never logs out. */
  lemma {:induction false} NeverAwayNeverLogsOut(m: Monitor, events: seq<Event>)
    requires m.stored == None
    requires forall i :: 0 <= i < |events| ==> !IsAway(events[i].next)
    ensures Run(m, events).logouts == m.logouts
    ensures Run(m, events).stored == None
    decreases |events|
  {
    if events != [] {
      assert forall i :: 0 <= i < |events[1..]| ==> events[1..][i] == events[i + 1];
      NeverAwayNeverLogsOut(Step(m, events[0]), events[1..]);
    }
  }

  /**
   * Whether every absence in `events` lasts at most five minutes. `leftAt` is
   * the time the app last left the foreground: it moves to the event's time
   * on each change from a status that is not away to one that is, and each
   * return to the foreground must come within five minutes of it.
   */
  predicate ShortAbsences(prev: AppStatus, leftAt: int, events: seq<Event>)
    decreases |events|
  {
    if events == [] then true
    else
      var e := events[0];
      (ReturnsToForeground(prev, e.next) ==> e.now - leftAt <= TimeoutDuration)
      && ShortAbsences(e.next, if !IsAway(prev) && IsAway(e.next) then e.now else leftAt, events[1..])
  }

  /**
   * In a session of any length, with a clock that does not go back and no
   * failing call, an app whose every absence from the foreground lasts at
   * most five minutes is never logged out.
   */
  lemma {:induction false} ShortAbsencesNeverLogOut(m: Monitor, events: seq<Event>, leftAt: int)
    requires forall i :: 0 <= i < |events| ==> events[i].fault == NoFault
    requires forall i, j :: 0 <= i < j < |events| ==> events[i].now <= events[j].now
    requires forall i :: 0 <= i < |events| ==> leftAt <= events[i].now
    requires StampedSince(m.stored, leftAt)
    requires ShortAbsences(m.appState, leftAt, events)
    ensures Run(m, events).logouts == m.logouts
    decreases |events|
  {
    if events != [] {
      var e := events[0];
      var leftAt' := if !IsAway(m.appState) && IsAway(e.next) then e.now else leftAt;
      var next := Step(m, e);
      assert StampedSince(next.stored, leftAt') && next.logouts == m.logouts;
      assert forall i :: 0 <= i < |events[1..]| ==> events[1..][i] == events[i + 1];
      ShortAbsencesNeverLogOut(next, events[1..], leftAt');
    }
  }

  /**
   * Storage failures can log a user out after a short absence: a failed
   * removal leaves an old time in the cell, a later failed write does not
   * replace it, and a ten-second absence afterwards is measured from the old
   * time.
   */
  lemma StaleTimestampAfterStorageFailures()
    ensures Run(Monitor(Active, None, 0),
                [Event(Background, 0, NoFault), Event(Active, 100000, RemoveFails),
                 Event(Background, 3600000, SetFails), Event(Active, 3610000, NoFault)]).logouts == 1
  {
    var events := [Event(Background, 0, NoFault), Event(Active, 100000, RemoveFails),
                   Event(Background, 3600000, SetFails), Event(Active, 3610000, NoFault)];
    var m0 := Monitor(Active, None, 0);
    var m1 := Step(m0, events[0]);
    assert m1 == Monitor(Background, Some(0), 0);
    var m2 := Step(m1, events[1]);
    assert m2 == Monitor(Active, Some(0), 0);
    var m3 := Step(m2, events[2]);
    assert m3 == Monitor(Background, Some(0), 0);
    var m4 := Step(m3, events[3]);
    assert m4 == Monitor(Active, None, 1);
    assert Run(m0, events) == Run(m1, events[1..]);
    assert Run(m1, events[1..]) == Run(m2, events[2..]);
    assert Run(m2, events[2..]) == Run(m3, events[3..]);
    assert Run(m3, events[3..]) == Run(m4, events[4..]);
    assert events[4..] == [];
  }

  /**
   * Time away is measured from the last change to `inactive` or `background`,
   * not from when the app left `active`: going from `inactive` to
   * `background` stamps the time again, so a 400-second absence made of 200
   * seconds `inactive` and 200 seconds `background` does not log out.
   */
  lemma RestampedAbsenceKeepsSession()
    ensures Run(Monitor(Active, None, 0),
                [Event(Inactive, 0, NoFault), Event(Background, 200000, NoFault),
                 Event(Active, 400000, NoFault)]).logouts == 0
  {
    var events := [Event(Inactive, 0, NoFault), Event(Background, 200000, NoFault),
                   Event(Active, 400000, NoFault)];
    var m0 := Monitor(Active, None, 0);
    var m1 := Step(m0, events[0]);
    assert m1 == Monitor(Inactive, Some(0), 0);
    var m2 := Step(m1, events[1]);
    assert m2 == Monitor(Background, Some(200000), 0);
    var m3 := Step(m2, events[2]);
    assert m3 == Monitor(Active, None, 0);
    assert Run(m0, events) == Run(m1, events[1..]);
    assert Run(m1, events[1..]) == Run(m2, events[2..]);
    assert Run(m2, events[2..]) == Run(m3, events[3..]);
    assert events[3..] == [];
  }

  /** Backgrounded at `t0`, back after more than five minutes: one logout, and the key is gone. */
  lemma LongAbsenceLogsOutOnce(m: Monitor, t0: int, t1: int)
    requires m.appState == Active
    requires t1 - t0 > TimeoutDuration
    ensures Run(m, [Event(Background, t0, NoFault), Event(Active, t1, NoFault)])
         == Monitor(Active, None, m.logouts + 1)
  {
    var away := Step(m, Event(Background, t0, NoFault));
    assert away == Monitor(Background, Some(t0), m.logouts);
    var back := Step(away, Event(Active, t1, NoFault));
    assert back == Monitor(Active, None, m.logouts + 1);
    RunPair(m, Event(Background, t0, NoFault), Event(Active, t1, NoFault));
  }

  /** Backgrounded at `t0`, back within five minutes: no logout, and the key is gone. */
  lemma ShortAbsenceKeepsSession(m: Monitor, t0: int, t1: int)
    requires m.appState == Active
    requires t1 - t0 <= TimeoutDuration
    ensures Run(m, [Event(Background, t0, NoFault), Event(Active, t1, NoFault)])
         == Monitor(Active, None, m.logouts)
  {
    var away := Step(m, Event(Background, t0, NoFault));
    assert away == Monitor(Background, Some(t0), m.logouts);
    var back := Step(away, Event(Active, t1, NoFault));
    assert back == Monitor(Active, None, m.logouts);
    RunPair(m, Event(Background, t0, NoFault), Event(Active, t1, NoFault));
  }

  /** Two events are handled one after the other. */
  lemma RunPair(m: Monitor, e1: Event, e2: Event)
    ensures Run(m, [e1, e2]) == Step(Step(m, e1), e2)
  {
    assert [e1, e2][1..] == [e2];
    assert Run(m, [e1, e2]) == Run(Step(m, e1), [e2]);
    assert [e2][1..] == [];
    assert Run(Step(m, e1), [e2]) == Run(Step(Step(m, e1), e2), []);
  }
}
