/**
 * The offline retry panel of the mobile app.
 *
 * Three pieces of state: whether the panel is visible, whether a retry is in
 * flight, and the pending reload action (`A` stands for the caller's closure).
 * `handleReload` awaits the action; the part before the await is
 * `StartReload`, the part after it is `SettleReload`, so that what the user
 * can do while the action runs (close the panel through the modal's
 * back-press handler, which is not gated) can be stated. Whether the action
 * resolves or rejects is the input `succeeded`.
 */
module OfflineNotifier {
  import opened Wrappers

  datatype Panel<A> = Panel(isVisible: bool, isRetrying: bool, reloadAction: Option<A>)

  /** Hidden, idle, nothing pending: the initial state and the state after closing. */
  function Closed<A>(): Panel<A> {
    Panel(false, false, None)
  }

  /** `notifyOffline(a)`: remember `a` (latest caller wins) and show the panel. */
  function Notify<A>(p: Panel<A>, a: A): Panel<A> {
    p.(reloadAction := Some(a), isVisible := true)
  }

  /** `closePanel`, from any state. */
  function Close<A>(p: Panel<A>): Panel<A> {
    Closed()
  }

  /** `handleReload` up to the await: with an action pending, mark the retry in flight. */
  function StartReload<A>(p: Panel<A>): Panel<A> {
    if p.reloadAction.None? then p else p.(isRetrying := true)
  }

  /** `handleReload` after the await: close on success, re-enable retry on failure. */
  function SettleReload<A>(p: Panel<A>, succeeded: bool): Panel<A> {
    if succeeded then Close(p) else p.(isRetrying := false)
  }

  /** A whole `handleReload`, with nothing else happening during the await. */
  function Reload<A>(p: Panel<A>, succeeded: bool): Panel<A> {
    if p.reloadAction.None? then p else SettleReload(StartReload(p), succeeded)
  }

  /** The Close button's `disabled` prop. */
  predicate CloseButtonDisabled<A>(p: Panel<A>) {
    p.isRetrying
  }

  /** The Reload button's `disabled` prop. */
  predicate ReloadButtonDisabled<A>(p: Panel<A>) {
    p.isRetrying
  }

  /** The panel after `k` reloads in a row whose action rejects each time. */
  function FailedReloads<A>(p: Panel<A>, k: nat): Panel<A>
    decreases k
  {
    if k == 0 then p else FailedReloads(Reload(p, false), k - 1)
  }

  /** The hook instance. */
  class Notifier<A> {
    var isVisible: bool
    var isRetrying: bool
    var reloadAction: Option<A>

    function State(): Panel<A>
      reads this
    {
      Panel(isVisible, isRetrying, reloadAction)
    }

    constructor ()
      ensures State() == Closed()
    {
      isVisible := false;
      isRetrying := false;
      reloadAction := None;
    }

    method NotifyOffline(onReload: A)
      modifies this
      ensures State() == Notify(old(State()), onReload)
    {
      reloadAction := Some(onReload);
      isVisible := true;
    }

    method ClosePanel()
      modifies this
      ensures State() == Close(old(State()))
    {
      isVisible := false;
      isRetrying := false;
      reloadAction := None;
    }

    /** Up to the await; `invoked` is the action about to run, if any. */
    method StartReloadAction() returns (invoked: Option<A>)
      modifies this
      ensures invoked == old(reloadAction)
      ensures State() == StartReload(old(State()))
    {
      invoked := reloadAction;
      if reloadAction.Some? {
        isRetrying := true;
      }
    }

    /** After the await: the action resolved (`succeeded`) or rejected. */
    method SettleReloadAction(succeeded: bool)
      modifies this
      ensures State() == SettleReload(old(State()), succeeded)
    {
      if succeeded {
        ClosePanel();
      } else {
        isRetrying := false;
      }
    }

    method HandleReload(succeeded: bool) returns (invoked: Option<A>)
      modifies this
      ensures invoked == old(reloadAction)
      ensures State() == Reload(old(State()), succeeded)
    {
      invoked := StartReloadAction();
      if invoked.Some? {
        SettleReloadAction(succeeded);
      }
    }
  }

  // ---------------------------------------------------------------------

  /** Notifying shows the panel and replaces the pending action; the retry flag is untouched. */
  lemma NotifyShowsAndReplaces<A>(p: Panel<A>, a: A)
    ensures Notify(p, a).isVisible && Notify(p, a).reloadAction == Some(a)
    ensures Notify(p, a).isRetrying == p.isRetrying
  {
  }

  /** Closing hides, clears retry and action, from any state; closing twice is closing once. */
  lemma CloseClearsAndIsIdempotent<A>(p: Panel<A>)
    ensures !Close(p).isVisible && !Close(p).isRetrying && Close(p).reloadAction.None?
    ensures Close(Close(p)) == Close(p)
  {
  }

  /** Reloading with nothing pending changes nothing. */
  lemma ReloadWithoutActionIsNoOp<A>(p: Panel<A>, succeeded: bool)
    requires p.reloadAction.None?
    ensures Reload(p, succeeded) == p
  {
  }

  /** With an action pending, the retry is marked in flight before the action runs. */
  lemma StartMarksRetrying<A>(p: Panel<A>)
    requires p.reloadAction.Some?
    ensures StartReload(p) == p.(isRetrying := true)
  {
  }

  /** A successful reload closes the panel; a failed one re-enables retry and keeps panel and action. */
  lemma ReloadOutcome<A>(p: Panel<A>)
    requires p.reloadAction.Some?
    ensures Reload(p, true) == Closed()
    ensures Reload(p, false) == p.(isRetrying := false)
  {
  }

  /**
   * Any number of failed retries keep the panel as it was and the same action
   * pending: retries are manual and unbounded.
   */
  lemma {:induction false} FailedReloadsKeepAction<A>(p: Panel<A>, k: nat)
    requires !p.isRetrying
    ensures FailedReloads(p, k) == p
    decreases k
  {
    if k > 0 {
      assert Reload(p, false) == p;
      FailedReloadsKeepAction(p, k - 1);
    }
  }

  /**
   * While a retry is in flight both buttons are disabled, yet closing (the
   * back-press path) still takes effect: the in-flight action's failure then
   * leaves the panel hidden with nothing left to retry.
   */
  lemma CloseDuringRetryIsNotBlocked<A>(p: Panel<A>)
    requires p.reloadAction.Some?
    ensures CloseButtonDisabled(StartReload(p)) && ReloadButtonDisabled(StartReload(p))
    ensures Close(StartReload(p)) == Closed()
    ensures SettleReload(Close(StartReload(p)), false) == Closed()
  {
  }

  /**
   * A notification during the await replaces the pending action. If the
   * running retry then fails, the new action stays pending with the panel
   * shown; if it succeeds, its close discards the new action as well.
   */
  lemma NotifyDuringRetry<A>(p: Panel<A>, b: A)
    requires p.reloadAction.Some?
    ensures SettleReload(Notify(StartReload(p), b), false) == Panel(true, false, Some(b))
    ensures SettleReload(Notify(StartReload(p), b), true) == Closed()
  {
  }

  /**
   * Closing during the await (the back-press path) and a new notification
   * re-enable the Reload button while the first action still runs, so a
   * second action can start beside it; the first action's late failure then
   * clears the retry flag while the second one is still running.
   */
  lemma CloseThenNotifyAllowsOverlappingRetries<A>(p: Panel<A>, b: A)
    requires p.reloadAction.Some?
    ensures !ReloadButtonDisabled(Notify(Close(StartReload(p)), b))
    ensures StartReload(Notify(Close(StartReload(p)), b)).isRetrying
    ensures !SettleReload(StartReload(Notify(Close(StartReload(p)), b)), false).isRetrying
  {
  }

  /** Offline once, first retry fails, second succeeds: visible, still visible with the same action, hidden. */
  lemma RetryScenario<A>(a: A)
    ensures Notify(Closed(), a) == Panel(true, false, Some(a))
    ensures Reload(Notify(Closed(), a), false) == Panel(true, false, Some(a))
    ensures Reload(Reload(Notify(Closed(), a), false), true) == Closed()
  {
  }
}
