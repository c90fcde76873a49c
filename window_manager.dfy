/**
 * The tray/window coordinator: the state that moves between "window visible" and "tray icon
 * running". Each operation that runs under the coordinator's lock is one atomic method; the
 * worker thread's body is a method the environment may call once per started worker.
 *
 * The first half states every operation as a function of the coordinator's whole state (the
 * specification); the classes at the end update fields in place and are proved to agree with it.
 */
module WindowManagement {
  import opened Wrappers
  import opened Win32
  import opened Seqs

  /** An attribute a Python object may or may not carry (`hasattr`). */
  datatype Attr<T> = Absent | Has(value: T)

  /**
   * The pystray icon as the coordinator sees it: its window handle `_hwnd`, its registered
   * window-class atom `_atom` (0 for a null handle), and the `_stopped` flag the coordinator
   * attaches to it.
   */
  datatype Icon = Icon(hwnd: Attr<nat>, atom: Attr<nat>, stopped: Attr<bool>)

  /** A freshly built icon: pystray gives it a window and a class; nobody has marked it yet. */
  function NewIcon(hwnd: nat, atom: nat): Icon
  {
    Icon(Has(hwnd), Has(atom), Absent)
  }

  /** What the coordinator asks of the Tk root window. */
  datatype WindowRequest = Withdraw | Deiconify | SetTopmost(on: bool) | FocusForce | Lift

  /** Callbacks queued on the Tk event loop, and what they do when it runs them. */
  datatype DeferredAction = ClearTopmost | PerformCleanup
  datatype Deferred = After(ms: nat, action: DeferredAction) | AfterIdle(action: DeferredAction)

  /** The root window: whether it is viewable, its topmost attribute, and what was asked of it. */
  datatype Screen = Screen(viewable: bool, topmost: bool, requests: seq<WindowRequest>, scheduled: seq<Deferred>)
  {
    function Withdrawn(): Screen
    {
      this.(viewable := false, requests := requests + [Withdraw])
    }

    function Deiconified(): Screen
    {
      this.(viewable := true, requests := requests + [Deiconify])
    }

    function WithTopmost(on: bool): Screen
    {
      this.(topmost := on, requests := requests + [SetTopmost(on)])
    }

    function Asked(r: WindowRequest): Screen
    {
      this.(requests := requests + [r])
    }

    function Scheduling(d: Deferred): Screen
    {
      this.(scheduled := scheduled + [d])
    }
  }

  /** Delay before the forced topmost attribute is cleared again, in milliseconds. */
  const TOPMOST_RESET_MS: nat := 200
  /** The stop sequence drains the message queue this many times, pausing after each. */
  const PUMP_ROUNDS: nat := 3
  const PUMP_PAUSE_MS: nat := 100

  const CLEANUP_FAILED: string := "资源清理失败: "
  const STOP_FAILED: string := "终止托盘异常: "
  const RUN_FAILED: string := "托盘运行异常: "

  /**
   * The whole state of the coordinator: the root window, whether the two host callbacks are
   * set, the `_exiting` flag, the icon, the `icon_running_event` and `icon_visible` flags, the
   * last started worker (`icon_thread`), how many workers were started and which have not yet
   * finished, every native call issued so far, every line printed, and how often each host
   * callback was invoked.
   */
  datatype Coordinator = Coordinator(
    window: Screen,
    hasShowCallback: bool,
    hasQuitCallback: bool,
    exiting: bool,
    icon: Option<Icon>,
    iconRunning: bool,
    iconVisible: bool,
    iconThread: Option<nat>,
    workersStarted: nat,
    liveWorkers: set<nat>,
    trace: seq<NativeCall>,
    reports: seq<Report>,
    showCallbacks: nat,
    quitCallbacks: nat)

  /** The state before the constructor builds the first icon. */
  function Initial(window: Screen, hasShowCallback: bool, hasQuitCallback: bool): Coordinator
  {
    Coordinator(window, hasShowCallback, hasQuitCallback, false, None, false, false, None, 0, {}, [], [], 0, 0)
  }

  /** `create_tray_icon`: builds an icon only when there is none. */
  function CreateIconSpec(c: Coordinator, hwnd: nat, atom: nat): (r: Coordinator)
    ensures r.icon.Some?
    ensures c.icon.Some? ==> r == c
    ensures c.icon.None? ==> r == c.(icon := Some(NewIcon(hwnd, atom)))
  {
    if c.icon.None? then c.(icon := Some(NewIcon(hwnd, atom))) else c
  }

  /**
   * The `try` block of `_cleanup_icon_resources`: post WM_CLOSE unless the icon is marked
   * stopped (a missing `_stopped` counts as stopped), destroy a non-null window, unregister a
   * non-null class atom; reading a missing `_atom` raises. Nothing happens without `_hwnd`.
   */
  function CleanupPlan(icon: Option<Icon>): (plan: seq<Step>)
    ensures |plan| <= 3
    ensures icon.None? || icon.value.hwnd.Absent? ==> plan == []
  {
    if icon.None? || icon.value.hwnd.Absent? then []
    else
      var ic := icon.value;
      var h := ic.hwnd.value;
      (if ic.stopped == Has(false) then [Call(PostMessage(h, WM_CLOSE))] else [])
      + (if h != 0 then [Call(DestroyWindow(h))] else [])
      + (match ic.atom
         case Absent => [Raise(AttributeError("_atom"))]
         case Has(a) => if a != 0 then [Call(UnregisterClass(a))] else [])
  }

  /**
   * `_cleanup_icon_resources`: runs the cleanup plan, prints any failure that is not the
   * benign invalid-handle error, and in every case forgets the icon and clears the running flag.
   */
  function CleanupSpec(c: Coordinator, os: Oracle): (r: Coordinator)
    ensures r.icon.None? && !r.iconRunning
    ensures r == c.(icon := None, iconRunning := false, trace := r.trace, reports := r.reports)
    ensures c.icon.None? ==> r == c.(iconRunning := false)
  {
    var out := Execute(CleanupPlan(c.icon), os, |c.trace|);
    c.(icon := None, iconRunning := false,
       trace := c.trace + out.issued,
       reports := c.reports + Reported(CLEANUP_FAILED, out.raised))
  }

  /**
   * The steps of the cleanup block: WM_CLOSE is posted first, and only to an icon explicitly
   * marked as not stopped; the window is destroyed exactly when its handle is not null; the
   * class is unregistered exactly when its atom is set and not null; a missing atom raises.
   */
  lemma CleanupPlanSteps(icon: Option<Icon>)
    ensures var plan := CleanupPlan(icon);
            (forall s :: s in plan && s.Call? ==>
               s.call.PostMessage? || s.call.DestroyWindow? || s.call.UnregisterClass?)
            && (forall s :: s in plan && s.Call? && s.call.PostMessage? ==>
                  s.call.msg == WM_CLOSE && icon.Some? && icon.value.hwnd == Has(s.call.hwnd)
                  && icon.value.stopped == Has(false))
            && (icon.Some? && icon.value.hwnd.Has? && icon.value.stopped == Has(false) ==>
                  |plan| >= 1 && plan[0] == Call(PostMessage(icon.value.hwnd.value, WM_CLOSE)))
            && (forall h: nat :: Call(DestroyWindow(h)) in plan <==>
                  icon.Some? && icon.value.hwnd == Has(h) && h != 0)
            && (forall a: nat :: Call(UnregisterClass(a)) in plan <==>
                  icon.Some? && icon.value.hwnd.Has? && icon.value.atom == Has(a) && a != 0)
            && (Raise(AttributeError("_atom")) in plan <==>
                  icon.Some? && icon.value.hwnd.Has? && icon.value.atom.Absent?)
  {
  }

  /**
   * What a cleanup changes besides the icon and the running flag: it only appends native
   * calls (at most three) and at most one report, which carries the cleanup prefix and an
   * error that is not the benign one.
   */
  lemma CleanupOnlyAppends(c: Coordinator, os: Oracle)
    ensures var r := CleanupSpec(c, os);
            c.trace <= r.trace && |r.trace| <= |c.trace| + 3
            && c.reports <= r.reports && |r.reports| <= |c.reports| + 1
            && forall i :: |c.reports| <= i < |r.reports| ==>
                 r.reports[i].prefix == CLEANUP_FAILED && !IsBenign(r.reports[i].error)
  {
  }

  /** A second cleanup changes nothing: the first already forgot the icon and cleared the flag. */
  lemma CleanupTwice(c: Coordinator, os: Oracle)
    ensures CleanupSpec(CleanupSpec(c, os), os) == CleanupSpec(c, os)
  {
  }

  /** Stopping again right after a stop changes nothing: there is no icon left to stop. */
  lemma StopTwice(c: Coordinator, os: Oracle)
    ensures StopSpec(StopSpec(c, os), os) == StopSpec(c, os)
  {
  }

  /** `icon._stopped = True` on a present icon. */
  function MarkStopped(icon: Option<Icon>): (r: Option<Icon>)
    ensures r.None? <==> icon.None?
    ensures r.Some? ==> r.value == icon.value.(stopped := Has(true))
  {
    if icon.Some? then Some(icon.value.(stopped := Has(true))) else None
  }

  /** `PUMP_ROUNDS` rounds of draining the message queue, each followed by a pause. */
  function PumpRounds(n: nat): (plan: seq<Step>)
    ensures |plan| == 2 * n
  {
    if n == 0 then [] else PumpRounds(n - 1) + [Call(PumpMessages), Call(Sleep(PUMP_PAUSE_MS))]
  }

  /** Within the rounds, drains sit at even positions and pauses at odd ones. */
  lemma {:induction false} PumpRoundsAt(m: nat, n: nat)
    requires n < m
    ensures PumpRounds(m)[2 * n] == Call(PumpMessages)
    ensures PumpRounds(m)[2 * n + 1] == Call(Sleep(PUMP_PAUSE_MS))
    decreases m
  {
    if n < m - 1 {
      PumpRoundsAt(m - 1, n);
    }
  }

  /**
   * The `try` block of `_stop_tray_icon` after the icon is marked stopped: only for a non-null
   * window, post WM_CLOSE and WM_QUIT to it, then pump and pause three times.
   */
  function StopPlan(icon: Option<Icon>): (plan: seq<Step>)
    ensures plan != [] <==> icon.Some? && icon.value.hwnd.Has? && icon.value.hwnd.value != 0
  {
    if icon.Some? && icon.value.hwnd.Has? && icon.value.hwnd.value != 0 then
      PostPlan(icon.value.hwnd.value) + PumpRounds(PUMP_ROUNDS)
    else []
  }

  /** The stop plan, step by step: the two messages, then drains and pauses taking turns. */
  lemma StopPlanSteps(icon: Option<Icon>)
    ensures var plan := StopPlan(icon);
            plan != [] ==>
              plan == [Call(PostMessage(icon.value.hwnd.value, WM_CLOSE)), Call(PostMessage(icon.value.hwnd.value, WM_QUIT)),
                       Call(PumpMessages), Call(Sleep(PUMP_PAUSE_MS)), Call(PumpMessages), Call(Sleep(PUMP_PAUSE_MS)),
                       Call(PumpMessages), Call(Sleep(PUMP_PAUSE_MS))]
  {
    var round := [Call(PumpMessages), Call(Sleep(PUMP_PAUSE_MS))];
    assert PumpRounds(1) == round;
    assert PumpRounds(2) == round + round;
    assert PumpRounds(3) == round + round + round;
  }

  /** Asking the icon's window to close and its thread to quit. */
  function PostPlan(h: nat): (plan: seq<Step>)
    ensures |plan| == 2
  {
    [Call(PostMessage(h, WM_CLOSE)), Call(PostMessage(h, WM_QUIT))]
  }

  /**
   * `_stop_tray_icon`: marks a present icon stopped, runs the stop plan, prints an unexpected
   * failure, and always finishes with the cleanup.
   */
  function StopSpec(c: Coordinator, os: Oracle): (r: Coordinator)
    ensures r.icon.None? && !r.iconRunning
    ensures r == c.(icon := None, iconRunning := false, trace := r.trace, reports := r.reports)
    ensures c.icon.None? ==> r == c.(iconRunning := false)
  {
    var marked := c.(icon := MarkStopped(c.icon));
    var out := Execute(StopPlan(marked.icon), os, |c.trace|);
    CleanupSpec(marked.(trace := c.trace + out.issued, reports := c.reports + Reported(STOP_FAILED, out.raised)), os)
  }

  /** `_sync_window_state`: a viewable window with the running flag set drops the icon. */
  function SyncSpec(c: Coordinator, os: Oracle): (r: Coordinator)
    ensures c.window.viewable && c.iconRunning ==> r.icon.None? && !r.iconRunning
    ensures !(c.window.viewable && c.iconRunning) ==> r == c
  {
    if c.window.viewable && c.iconRunning then CleanupSpec(c.(iconRunning := false), os) else c
  }

  /**
   * `hide_window`: stops a running icon first, then withdraws the window, builds an icon if
   * there is none, sets the running flag and starts exactly one new worker.
   */
  function HideSpec(c: Coordinator, os: Oracle, hwnd: nat, atom: nat): (r: Coordinator)
    ensures !r.window.viewable && r.window.requests == c.window.requests + [Withdraw]
    ensures r.window.scheduled == c.window.scheduled && r.window.topmost == c.window.topmost
    ensures r.icon.Some? && r.iconRunning
    ensures r.workersStarted == c.workersStarted + 1
    ensures r.iconThread == Some(c.workersStarted)
    ensures r.liveWorkers == c.liveWorkers + {c.workersStarted}
    ensures c.iconRunning ==> r.icon == Some(NewIcon(hwnd, atom))
    ensures !c.iconRunning ==> r.icon == CreateIconSpec(c, hwnd, atom).icon
    ensures c.iconRunning ==> r.trace == StopSpec(c, os).trace && r.reports == StopSpec(c, os).reports
    ensures !c.iconRunning ==> r.trace == c.trace && r.reports == c.reports
    ensures r.exiting == c.exiting && r.showCallbacks == c.showCallbacks && r.quitCallbacks == c.quitCallbacks
  {
    var settled := if c.iconRunning then StopSpec(c, os) else c;
    StartIconSpec(settled, hwnd, atom)
  }

  /**
   * The rest of `hide_window`, once a running icon is stopped: unless the running flag is
   * still set, withdraws the window, builds an icon if there is none, sets the flag and
   * starts one new worker.
   */
  function StartIconSpec(c: Coordinator, hwnd: nat, atom: nat): (r: Coordinator)
    ensures !c.iconRunning ==> !r.window.viewable && r.iconRunning && r.workersStarted == c.workersStarted + 1
    ensures c.iconRunning ==> r == c
  {
    if !c.iconRunning then
      var created := CreateIconSpec(c.(window := c.window.Withdrawn()), hwnd, atom);
      created.(iconRunning := true,
               iconThread := Some(c.workersStarted),
               workersStarted := c.workersStarted + 1,
               liveWorkers := c.liveWorkers + {c.workersStarted})
    else c
  }

  /** `safe_hide_window`: hides to the tray only a viewable window; otherwise just withdraws it. */
  function SafeHideSpec(c: Coordinator, os: Oracle, hwnd: nat, atom: nat): (r: Coordinator)
    ensures !r.window.viewable
    ensures c.window.viewable ==> r.iconRunning && r.workersStarted == c.workersStarted + 1
    ensures !c.window.viewable ==> r == c.(window := c.window.Withdrawn())
  {
    if c.window.viewable then HideSpec(c, os, hwnd, atom) else c.(window := c.window.Withdrawn())
  }

  /**
   * `show_window`: always stops the icon, deiconifies a window that is not viewable, raises it
   * topmost and schedules the reset, clears `icon_visible` and invokes the show callback once.
   */
  function ShowSpec(c: Coordinator, os: Oracle): (r: Coordinator)
    ensures r.icon.None? && !r.iconRunning && !r.iconVisible
    ensures r.window.viewable && r.window.topmost
    ensures r.window.requests ==
              c.window.requests + (if c.window.viewable then [] else [Deiconify]) + [SetTopmost(true), FocusForce, Lift]
    ensures r.window.scheduled == c.window.scheduled + [After(TOPMOST_RESET_MS, ClearTopmost)]
    ensures r.showCallbacks == c.showCallbacks + (if c.hasShowCallback then 1 else 0)
    ensures r.quitCallbacks == c.quitCallbacks && r.exiting == c.exiting
    ensures r.workersStarted == c.workersStarted && r.liveWorkers == c.liveWorkers && r.iconThread == c.iconThread
    ensures r.trace == StopSpec(c, os).trace && r.reports == StopSpec(c, os).reports
  {
    RaiseSpec(StopSpec(c, os))
  }

  /**
   * The rest of `show_window`, once the icon is stopped: deiconifies a window that is not
   * viewable, raises it topmost and schedules the reset, clears `icon_visible` and invokes
   * the show callback once.
   */
  function RaiseSpec(c: Coordinator): (r: Coordinator)
    ensures r.window.viewable && r.window.topmost && !r.iconVisible
    ensures r.showCallbacks == c.showCallbacks + (if c.hasShowCallback then 1 else 0)
  {
    var w0 := c.window;
    var w1 := if !w0.viewable then w0.Deiconified() else w0;
    var w2 := w1.WithTopmost(true).Asked(FocusForce).Asked(Lift).Scheduling(After(TOPMOST_RESET_MS, ClearTopmost));
    c.(window := w2,
       iconVisible := false,
       showCallbacks := if c.hasShowCallback then c.showCallbacks + 1 else c.showCallbacks)
  }

  /**
   * `_run_icon_safe`, the body of worker `w`: runs the icon loop only for a present icon not
   * marked stopped; on every exit marks a present icon stopped, clears the running flag and
   * cleans up. The worker then ends.
   */
  function RunWorkerSpec(c: Coordinator, os: Oracle, w: nat): (r: Coordinator)
    ensures r.icon.None? && !r.iconRunning
    ensures r.liveWorkers == c.liveWorkers - {w}
    ensures r.window == c.window && r.exiting == c.exiting && r.workersStarted == c.workersStarted
  {
    CleanupSpec(WorkerLoopSpec(c, os), os).(liveWorkers := c.liveWorkers - {w})
  }

  /**
   * The part of `_run_icon_safe` before its cleanup: the icon loop, if it runs, and the
   * `finally` clause marking a present icon stopped and clearing the running flag.
   */
  function WorkerLoopSpec(c: Coordinator, os: Oracle): (r: Coordinator)
    ensures r.window == c.window && r.exiting == c.exiting && r.workersStarted == c.workersStarted
  {
    var runs := c.icon.Some? && c.icon.value.stopped != Has(true);
    var launched := if runs then c.(icon := Some(c.icon.value.(stopped := Has(false)))) else c;
    var out := if runs then Execute([Call(RunIcon)], os, |c.trace|) else Outcome([], None);
    var ended := launched.(trace := c.trace + out.issued, reports := c.reports + Reported(RUN_FAILED, out.raised));
    ended.(icon := MarkStopped(ended.icon), iconRunning := false)
  }

  /** `_perform_cleanup`: invokes the quit callback when it is set. */
  function PerformCleanupSpec(c: Coordinator): (r: Coordinator)
    ensures r == c.(quitCallbacks := r.quitCallbacks)
    ensures r.quitCallbacks == c.quitCallbacks + (if c.hasQuitCallback then 1 else 0)
  {
    if c.hasQuitCallback then c.(quitCallbacks := c.quitCallbacks + 1) else c
  }

  /**
   * `quit_app`: sets `_exiting` first. Off the main thread it queues `_perform_cleanup` on the
   * Tk loop and stops the icon only if it is running; on the main thread it runs
   * `_perform_cleanup` at once and leaves the icon alone.
   */
  function QuitSpec(c: Coordinator, os: Oracle, onMainThread: bool): (r: Coordinator)
    ensures r.exiting
    ensures onMainThread ==>
              r == c.(exiting := true, quitCallbacks := c.quitCallbacks + (if c.hasQuitCallback then 1 else 0))
    ensures !onMainThread ==>
              r.window == c.window.Scheduling(AfterIdle(PerformCleanup)) && r.quitCallbacks == c.quitCallbacks
    ensures !onMainThread && c.iconRunning ==> r.icon.None? && !r.iconRunning
    ensures !onMainThread && !c.iconRunning ==>
              r == c.(exiting := true, window := c.window.Scheduling(AfterIdle(PerformCleanup)))
  {
    var flagged := c.(exiting := true);
    if !onMainThread then
      var queued := flagged.(window := flagged.window.Scheduling(AfterIdle(PerformCleanup)));
      if queued.iconRunning then StopSpec(queued, os) else queued
    else
      PerformCleanupSpec(flagged)
  }

  // ---------------------------------------------------------------------------------------
  // Properties that relate several operations

  /**
   * When the DestroyWindow of a cleanup raises, the UnregisterClass after it in the same
   * `try` block is skipped, and the error leaves the block.
   */
  lemma {:induction false} FailedDestroySkipsUnregister(icon: Icon, os: Oracle, k: nat)
    requires icon.hwnd.Has? && icon.hwnd.value != 0 && icon.stopped != Has(false)
    requires Fault(os, k, DestroyWindow(icon.hwnd.value)).Some?
    ensures var out := Execute(CleanupPlan(Some(icon)), os, k);
            out.issued == [DestroyWindow(icon.hwnd.value)]
            && out.raised == Fault(os, k, DestroyWindow(icon.hwnd.value))
            && forall c :: c in out.issued ==> !c.UnregisterClass?
  {
    var plan := CleanupPlan(Some(icon));
    var h := icon.hwnd.value;
    assert plan[0] == Call(DestroyWindow(h));
    assert ExecuteFirst(plan, 1, os, k) == Outcome([DestroyWindow(h)], Fault(os, k, DestroyWindow(h)));
    ExecuteIgnoresStepsAfterRaise(plan, 1, os, k);
  }

  /** When nothing fails, the stop block of a live window issues all of its eight calls. */
  lemma StopBlockWithoutFaults(icon: Option<Icon>, os: Oracle, k: nat, h: nat)
    requires NeverFails(os)
    requires icon.Some? && icon.value.hwnd == Has(h) && h != 0
    ensures Execute(StopPlan(icon), os, k) == Outcome([
              PostMessage(h, WM_CLOSE), PostMessage(h, WM_QUIT),
              PumpMessages, Sleep(PUMP_PAUSE_MS), PumpMessages, Sleep(PUMP_PAUSE_MS), PumpMessages, Sleep(PUMP_PAUSE_MS)], None)
  {
    var plan := StopPlan(icon);
    StopPlanSteps(icon);
    ExecuteWithoutFaults(plan, os, k);
    CallsOfEach(plan, [PostMessage(h, WM_CLOSE), PostMessage(h, WM_QUIT),
                       PumpMessages, Sleep(PUMP_PAUSE_MS), PumpMessages, Sleep(PUMP_PAUSE_MS), PumpMessages, Sleep(PUMP_PAUSE_MS)]);
  }

  /** When nothing fails, cleaning up a stopped icon destroys its window and unregisters its class. */
  lemma CleanupBlockWithoutFaults(icon: Option<Icon>, os: Oracle, k: nat, h: nat, a: nat)
    requires NeverFails(os)
    requires icon.Some? && icon.value.hwnd == Has(h) && icon.value.atom == Has(a) && h != 0 && a != 0
    requires icon.value.stopped == Has(true)
    ensures Execute(CleanupPlan(icon), os, k) == Outcome([DestroyWindow(h), UnregisterClass(a)], None)
  {
    var plan := CleanupPlan(icon);
    assert plan == [Call(DestroyWindow(h)), Call(UnregisterClass(a))];
    ExecuteWithoutFaults(plan, os, k);
    CallsOfEach(plan, [DestroyWindow(h), UnregisterClass(a)]);
  }

  /**
   * When nothing fails, stopping an icon with a live window and class posts WM_CLOSE and
   * WM_QUIT, pumps and pauses three times, destroys the window and unregisters the class,
   * and prints nothing.
   */
  lemma StopWithoutFaults(c: Coordinator, os: Oracle, h: nat, a: nat)
    requires NeverFails(os)
    requires c.icon.Some? && c.icon.value.hwnd == Has(h) && c.icon.value.atom == Has(a) && h != 0 && a != 0
    ensures StopSpec(c, os).trace == c.trace + [
              PostMessage(h, WM_CLOSE), PostMessage(h, WM_QUIT),
              PumpMessages, Sleep(PUMP_PAUSE_MS), PumpMessages, Sleep(PUMP_PAUSE_MS), PumpMessages, Sleep(PUMP_PAUSE_MS),
              DestroyWindow(h), UnregisterClass(a)]
    ensures StopSpec(c, os).reports == c.reports
  {
    var marked := MarkStopped(c.icon);
    var stopCalls := [PostMessage(h, WM_CLOSE), PostMessage(h, WM_QUIT),
                      PumpMessages, Sleep(PUMP_PAUSE_MS), PumpMessages, Sleep(PUMP_PAUSE_MS), PumpMessages, Sleep(PUMP_PAUSE_MS)];
    StopBlockWithoutFaults(marked, os, |c.trace|, h);
    var stopped := c.(icon := marked, trace := c.trace + stopCalls, reports := c.reports + Reported(STOP_FAILED, None));
    assert StopSpec(c, os) == CleanupSpec(stopped, os);
    CleanupBlockWithoutFaults(marked, os, |stopped.trace|, h, a);
  }

  /** The stop sequence never waits longer than three pauses, whatever the native calls do. */
  lemma {:induction false} StopWaitIsBounded(icon: Option<Icon>, os: Oracle, k: nat)
    ensures PauseTime(Execute(StopPlan(icon), os, k).issued) <= PUMP_ROUNDS * PUMP_PAUSE_MS
  {
    var plan := StopPlan(icon);
    var issued := Execute(plan, os, k).issued;
    if plan != [] {
      StopPlanSteps(icon);
      var h := icon.value.hwnd.value;
      var calls := [PostMessage(h, WM_CLOSE), PostMessage(h, WM_QUIT),
                    PumpMessages, Sleep(PUMP_PAUSE_MS), PumpMessages, Sleep(PUMP_PAUSE_MS), PumpMessages, Sleep(PUMP_PAUSE_MS)];
      ExecuteStopsAtFirstRaise(plan, os, k);
      PauseTimeOfPrefix(issued, calls);
      assert PauseTimeFirst(calls, 1) == 0;
      assert PauseTimeFirst(calls, 2) == 0;
      assert PauseTimeFirst(calls, 4) == PUMP_PAUSE_MS;
      assert PauseTimeFirst(calls, 6) == 2 * PUMP_PAUSE_MS;
      assert PauseTimeFirst(calls, 8) == 3 * PUMP_PAUSE_MS;
      assert |calls| == 8;
    }
  }

  /** The calls a worker issues: the loop, if it runs it, then the cleanup of its marked icon. */
  lemma WorkerTrace(c: Coordinator, os: Oracle, w: nat)
    ensures var runs := c.icon.Some? && c.icon.value.stopped != Has(true);
            var loop := if runs then [RunIcon] else [];
            RunWorkerSpec(c, os, w).trace ==
              c.trace + loop + Execute(CleanupPlan(MarkStopped(c.icon)), os, |c.trace| + |loop|).issued
  {
    var runs := c.icon.Some? && c.icon.value.stopped != Has(true);
    var loop := if runs then [RunIcon] else [];
    WorkerCleansUpAfterLoop(c, os, w);
    WorkerLoopTrace(c, os);
  }

  /** A worker's calls are those of its loop, then those of the cleanup of the icon the loop leaves. */
  lemma WorkerCleansUpAfterLoop(c: Coordinator, os: Oracle, w: nat)
    ensures var ended := WorkerLoopSpec(c, os);
            RunWorkerSpec(c, os, w).trace == ended.trace + Execute(CleanupPlan(ended.icon), os, |ended.trace|).issued
  {
    var ended := WorkerLoopSpec(c, os);
    assert RunWorkerSpec(c, os, w).trace == CleanupSpec(ended, os).trace;
  }

  /** The icon loop issues `RunIcon` exactly when it runs, and leaves the icon marked stopped. */
  lemma WorkerLoopTrace(c: Coordinator, os: Oracle)
    ensures var runs := c.icon.Some? && c.icon.value.stopped != Has(true);
            var r := WorkerLoopSpec(c, os);
            r.trace == c.trace + (if runs then [RunIcon] else []) && r.icon == MarkStopped(c.icon)
  {
    var runs := c.icon.Some? && c.icon.value.stopped != Has(true);
    if runs {
      assert ExecuteFirst([Call(RunIcon)], 1, os, |c.trace|).issued == [RunIcon];
    } else {
      assert c.trace + [] == c.trace;
    }
  }

  /** A worker runs pystray's loop exactly when its icon exists and is not marked stopped. */
  lemma WorkerRunsLoopOnlyForLiveIcon(c: Coordinator, os: Oracle, w: nat)
    ensures var r := RunWorkerSpec(c, os, w);
            (|r.trace| > |c.trace| && r.trace[|c.trace|] == RunIcon) <==>
            c.icon.Some? && c.icon.value.stopped != Has(true)
  {
    var runs := c.icon.Some? && c.icon.value.stopped != Has(true);
    WorkerTrace(c, os, w);
    if !runs {
      var plan := CleanupPlan(MarkStopped(c.icon));
      var cleanup := Execute(plan, os, |c.trace|);
      if cleanup.issued != [] {
        ExecuteStopsAtFirstRaise(plan, os, |c.trace|);
        CleanupPlanSteps(MarkStopped(c.icon));
        assert plan[0] in plan && plan[0] == Call(cleanup.issued[0]);
      }
    }
  }

  /**
   * The cleanup at the end of a worker never posts WM_CLOSE, whatever the icon's state:
   * the worker marks the icon stopped before cleaning up.
   */
  lemma WorkerNeverPostsMessages(c: Coordinator, os: Oracle, w: nat)
    ensures var r := RunWorkerSpec(c, os, w);
            forall i :: |c.trace| <= i < |r.trace| ==> !r.trace[i].PostMessage?
  {
    var runs := c.icon.Some? && c.icon.value.stopped != Has(true);
    var loop := if runs then [RunIcon] else [];
    var cleanup := Execute(CleanupPlan(MarkStopped(c.icon)), os, |c.trace| + |loop|).issued;
    WorkerTrace(c, os, w);
    StoppedCleanupPostsNothing(c.icon, os, |c.trace| + |loop|);
    var r := RunWorkerSpec(c, os, w);
    forall i | |c.trace| <= i < |r.trace|
      ensures !r.trace[i].PostMessage?
    {
      if i >= |c.trace| + |loop| {
        assert r.trace[i] == cleanup[i - |c.trace| - |loop|];
      }
    }
  }

  /** The cleanup of an icon marked stopped issues no PostMessage at all. */
  lemma StoppedCleanupPostsNothing(icon: Option<Icon>, os: Oracle, k: nat)
    ensures var issued := Execute(CleanupPlan(MarkStopped(icon)), os, k).issued;
            forall i :: 0 <= i < |issued| ==> !issued[i].PostMessage?
  {
    var plan := CleanupPlan(MarkStopped(icon));
    var issued := Execute(plan, os, k).issued;
    ExecuteStopsAtFirstRaise(plan, os, k);
    CleanupPlanSteps(MarkStopped(icon));
    forall i | 0 <= i < |issued|
      ensures !issued[i].PostMessage?
    {
      assert plan[i] in plan && plan[i] == Call(issued[i]);
    }
  }

  /** A stop only appends native calls and at most two reports. */
  lemma StopOnlyAppends(c: Coordinator, os: Oracle)
    ensures var r := StopSpec(c, os);
            c.trace <= r.trace && |r.trace| <= |c.trace| + 11
            && c.reports <= r.reports && |r.reports| <= |c.reports| + 2
  {
    var marked := c.(icon := MarkStopped(c.icon));
    var out := Execute(StopPlan(marked.icon), os, |c.trace|);
    CleanupOnlyAppends(marked.(trace := c.trace + out.issued, reports := c.reports + Reported(STOP_FAILED, out.raised)), os);
  }

  /**
   * Hiding and then showing again: the icon is gone, the flag clear and the window viewable,
   * the show callback ran once, and the worker started by the hide is not waited for and
   * may still be running.
   */
  lemma HideThenShow(c: Coordinator, os: Oracle, hwnd: nat, atom: nat)
    ensures var r := ShowSpec(HideSpec(c, os, hwnd, atom), os);
            r.icon.None? && !r.iconRunning && r.window.viewable
            && r.window.requests == c.window.requests + [Withdraw, Deiconify, SetTopmost(true), FocusForce, Lift]
            && r.showCallbacks == c.showCallbacks + (if c.hasShowCallback then 1 else 0)
            && r.workersStarted == c.workersStarted + 1
            && c.workersStarted in r.liveWorkers
  {
    var hidden := HideSpec(c, os, hwnd, atom);
    assert hidden.window.requests == c.window.requests + [Withdraw];
  }

  /**
   * Hiding twice without a show in between: the first icon is stopped and replaced, the
   * running flag is set, and each hide started exactly one worker.
   */
  lemma HideTwice(c: Coordinator, os: Oracle, hwnd1: nat, atom1: nat, hwnd2: nat, atom2: nat)
    ensures var r := HideSpec(HideSpec(c, os, hwnd1, atom1), os, hwnd2, atom2);
            r.icon == Some(NewIcon(hwnd2, atom2)) && r.iconRunning
            && r.workersStarted == c.workersStarted + 2
            && r.iconThread == Some(c.workersStarted + 1)
            && r.liveWorkers == c.liveWorkers + {c.workersStarted, c.workersStarted + 1}
  {
  }

  /**
   * Quitting is not terminal in the code: after `quit_app`, `hide_window` still builds an
   * icon and starts a worker, because nothing checks `_exiting`.
   */
  lemma HideAfterQuit(c: Coordinator, os: Oracle, onMainThread: bool, hwnd: nat, atom: nat)
    ensures var r := HideSpec(QuitSpec(c, os, onMainThread), os, hwnd, atom);
            r.exiting && r.icon.Some? && r.iconRunning && r.workersStarted == c.workersStarted + 1
  {
  }

  /**
   * A worker that finds its icon already marked stopped by a stop in between does not run the
   * loop and issues no native call at all: the stop already forgot the icon.
   */
  lemma WorkerAfterShowDoesNothingNative(c: Coordinator, os: Oracle, hwnd: nat, atom: nat)
    ensures var hidden := HideSpec(c, os, hwnd, atom);
            var shown := ShowSpec(hidden, os);
            var r := RunWorkerSpec(shown, os, c.workersStarted);
            r.trace == shown.trace && r.reports == shown.reports
            && c.workersStarted !in r.liveWorkers
  {
  }

  // ---------------------------------------------------------------------------------------
  // The imperative coordinator

  /** The Tk root window, as far as the coordinator uses it. */
  class TkWindow {
    var viewable: bool
    var topmost: bool
    var requests: seq<WindowRequest>
    var scheduled: seq<Deferred>

    constructor (viewable: bool)
      ensures State() == Screen(viewable, false, [], [])
    {
      this.viewable := viewable;
      topmost := false;
      requests := [];
      scheduled := [];
    }

    function State(): Screen
      reads this
    {
      Screen(viewable, topmost, requests, scheduled)
    }

    method Withdraw()
      modifies this
      ensures State() == old(State()).Withdrawn()
    {
      viewable := false;
      requests := requests + [WindowRequest.Withdraw];
    }

    method Deiconify()
      modifies this
      ensures State() == old(State()).Deiconified()
    {
      viewable := true;
      requests := requests + [WindowRequest.Deiconify];
    }

    /** `attributes('-topmost', on)` */
    method SetTopmost(on: bool)
      modifies this
      ensures State() == old(State()).WithTopmost(on)
    {
      topmost := on;
      requests := requests + [WindowRequest.SetTopmost(on)];
    }

    method FocusForce()
      modifies this
      ensures State() == old(State()).Asked(WindowRequest.FocusForce)
    {
      requests := requests + [WindowRequest.FocusForce];
    }

    method Lift()
      modifies this
      ensures State() == old(State()).Asked(WindowRequest.Lift)
    {
      requests := requests + [WindowRequest.Lift];
    }

    method After(ms: nat, action: DeferredAction)
      modifies this
      ensures State() == old(State()).Scheduling(Deferred.After(ms, action))
    {
      scheduled := scheduled + [Deferred.After(ms, action)];
    }

    method AfterIdle(action: DeferredAction)
      modifies this
      ensures State() == old(State()).Scheduling(Deferred.AfterIdle(action))
    {
      scheduled := scheduled + [Deferred.AfterIdle(action)];
    }
  }

  class WindowManager {
    const root: TkWindow
    const hasShowCallback: bool
    const hasQuitCallback: bool
    const osFault: Oracle

    var exiting: bool
    var icon: Option<Icon>
    var iconThread: Option<nat>
    var workersStarted: nat
    var liveWorkers: set<nat>
    var iconRunning: bool
    var iconVisible: bool
    var trace: seq<NativeCall>
    var reports: seq<Report>
    var showCallbacks: nat
    var quitCallbacks: nat

    ghost function Model(): Coordinator
      reads this, root
    {
      Coordinator(root.State(), hasShowCallback, hasQuitCallback, exiting, icon, iconRunning, iconVisible,
                  iconThread, workersStarted, liveWorkers, trace, reports, showCallbacks, quitCallbacks)
    }

    /** `__init__`: all flags clear, then `create_tray_icon`. */
    constructor (root: TkWindow, hasShowCallback: bool, hasQuitCallback: bool, osFault: Oracle, hwnd: nat, atom: nat)
      ensures this.root == root && this.osFault == osFault
      ensures Model() == CreateIconSpec(Initial(root.State(), hasShowCallback, hasQuitCallback), hwnd, atom)
    {
      this.root := root;
      this.hasShowCallback := hasShowCallback;
      this.hasQuitCallback := hasQuitCallback;
      this.osFault := osFault;
      exiting := false;
      icon := None;
      iconThread := None;
      workersStarted := 0;
      liveWorkers := {};
      iconRunning := false;
      iconVisible := false;
      trace := [];
      reports := [];
      showCallbacks := 0;
      quitCallbacks := 0;
      new;
      CreateTrayIcon(hwnd, atom);
    }

    method CreateTrayIcon(hwnd: nat, atom: nat)
      modifies this
      ensures Model() == CreateIconSpec(old(Model()), hwnd, atom)
    {
      if icon.None? {
        icon := Some(NewIcon(hwnd, atom));
      }
    }

    /**
     * Statement `i` of the `try` block `plan`: it runs only while no exception is pending.
     * `trace` and the pending exception always agree with `ExecuteFirst` on the statements
     * reached so far.
     */
    method NativeStep(ghost start: seq<NativeCall>, ghost plan: seq<Step>, ghost i: nat, pending: Option<Exception>, step: Step)
      returns (raised: Option<Exception>)
      requires i < |plan| && plan[i] == step
      requires trace == start + ExecuteFirst(plan, i, osFault, |start|).issued
      requires pending == ExecuteFirst(plan, i, osFault, |start|).raised
      modifies this`trace
      ensures trace == start + ExecuteFirst(plan, i + 1, osFault, |start|).issued
      ensures raised == ExecuteFirst(plan, i + 1, osFault, |start|).raised
      ensures pending.Some? ==> raised == pending && trace == old(trace)
      ensures pending.None? && step.Call? ==> raised == Fault(osFault, |old(trace)|, step.call)
    {
      raised := pending;
      if pending.None? {
        match step
        case Raise(e) =>
          raised := Some(e);
        case Call(c) =>
          raised := Fault(osFault, |trace|, c);
          trace := trace + [c];
      }
    }

    /** The `try` block of `_cleanup_icon_resources`: issues the cleanup plan of the current icon. */
    method RunCleanupBlock() returns (raised: Option<Exception>)
      modifies this`trace
      ensures trace == old(trace) + Execute(CleanupPlan(icon), osFault, |old(trace)|).issued
      ensures raised == Execute(CleanupPlan(icon), osFault, |old(trace)|).raised
    {
      ghost var start := trace;
      ghost var plan := CleanupPlan(icon);
      ghost var i := 0;
      raised := None;
      if icon.Some? && icon.value.hwnd.Has? {
        var h := icon.value.hwnd.value;
        ghost var close := if icon.value.stopped == Has(false) then [Call(PostMessage(h, WM_CLOSE))] else [];
        ghost var destroy := if h != 0 then [Call(DestroyWindow(h))] else [];
        if icon.value.stopped == Has(false) {
          raised := NativeStep(start, plan, i, raised, Call(PostMessage(h, WM_CLOSE)));
          i := i + 1;
        }
        assert i == |close|;
        if h != 0 {
          raised := NativeStep(start, plan, i, raised, Call(DestroyWindow(h)));
          i := i + 1;
        }
        assert i == |close + destroy|;
        match icon.value.atom
        case Absent =>
          raised := NativeStep(start, plan, i, raised, Raise(AttributeError("_atom")));
          i := i + 1;
        case Has(a) =>
          if a != 0 {
            raised := NativeStep(start, plan, i, raised, Call(UnregisterClass(a)));
            i := i + 1;
          }
      }
      assert i == |plan|;
    }

    method CleanupIconResources()
      modifies this
      ensures Model() == CleanupSpec(old(Model()), osFault)
    {
      var raised := RunCleanupBlock();
      reports := reports + Reported(CLEANUP_FAILED, raised);
      icon := None;
      iconRunning := false;
    }

    method SyncWindowState()
      modifies this
      ensures Model() == SyncSpec(old(Model()), osFault)
    {
      if root.viewable && iconRunning {
        iconRunning := false;
        CleanupIconResources();
      }
    }

    method SafeHideWindow(hwnd: nat, atom: nat)
      modifies this, root
      ensures Model() == SafeHideSpec(old(Model()), osFault, hwnd, atom)
    {
      if root.viewable {
        HideWindow(hwnd, atom);
      } else {
        root.Withdraw();
      }
    }

    /** `hwnd` and `atom` are the handles the system gives an icon built here, if one is. */
    method HideWindow(hwnd: nat, atom: nat)
      modifies this, root
      ensures Model() == HideSpec(old(Model()), osFault, hwnd, atom)
    {
      if iconRunning {
        StopTrayIcon();
      }
      StartIcon(hwnd, atom);
    }

    /** The second half of `hide_window`, after a running icon was stopped. */
    method StartIcon(hwnd: nat, atom: nat)
      modifies this, root
      ensures Model() == StartIconSpec(old(Model()), hwnd, atom)
    {
      if !iconRunning {
        root.Withdraw();
        if icon.None? {
          CreateTrayIcon(hwnd, atom);
        }
        iconRunning := true;
        iconThread := Some(workersStarted);
        liveWorkers := liveWorkers + {workersStarted};
        workersStarted := workersStarted + 1;
      }
    }

    /**
     * The `try` block of `_stop_tray_icon` after the icon is marked: posts the two messages,
     * then pumps and pauses three times, stopping at the first call that raises.
     */
    method RunStopBlock() returns (raised: Option<Exception>)
      modifies this`trace
      ensures trace == old(trace) + Execute(StopPlan(icon), osFault, |old(trace)|).issued
      ensures raised == Execute(StopPlan(icon), osFault, |old(trace)|).raised
    {
      if icon.Some? && icon.value.hwnd.Has? && icon.value.hwnd.value != 0 {
        raised := RunLiveStopBlock(icon.value.hwnd.value);
      } else {
        raised := None;
        assert StopPlan(icon) == [];
        assert trace == old(trace) + [];
      }
    }

    /** The stop block for a live window `h`: the two posts, then, unless one raised, the rounds. */
    method RunLiveStopBlock(h: nat) returns (raised: Option<Exception>)
      modifies this`trace
      ensures trace == old(trace) + Execute(PostPlan(h) + PumpRounds(PUMP_ROUNDS), osFault, |old(trace)|).issued
      ensures raised == Execute(PostPlan(h) + PumpRounds(PUMP_ROUNDS), osFault, |old(trace)|).raised
    {
      ghost var start := trace;
      ghost var post := Execute(PostPlan(h), osFault, |start|);
      ghost var whole := Execute(PostPlan(h) + PumpRounds(PUMP_ROUNDS), osFault, |start|);
      raised := PostStopMessages(h);
      if raised.None? {
        ghost var pump := Execute(PumpRounds(PUMP_ROUNDS), osFault, |start| + |post.issued|);
        raised := PumpAndPause();
        assert trace == start + whole.issued && raised == whole.raised by {
          ExecuteAppend(PostPlan(h), PumpRounds(PUMP_ROUNDS), osFault, |start|);
          AppendAssoc(start, post.issued, pump.issued);
        }
      } else {
        assert whole == post by {
          ExecuteAppend(PostPlan(h), PumpRounds(PUMP_ROUNDS), osFault, |start|);
        }
      }
    }

    /** Posting WM_CLOSE, then WM_QUIT, to the icon's window, stopping at the first that raises. */
    method PostStopMessages(h: nat) returns (raised: Option<Exception>)
      modifies this`trace
      ensures trace == old(trace) + Execute(PostPlan(h), osFault, |old(trace)|).issued
      ensures raised == Execute(PostPlan(h), osFault, |old(trace)|).raised
    {
      ghost var plan := PostPlan(h);
      ghost var start := trace;
      raised := None;
      var messages := [WM_CLOSE, WM_QUIT];
      for i := 0 to |messages|
        invariant raised.None?
        invariant trace == start + ExecuteFirst(plan, i, osFault, |start|).issued
        invariant raised == ExecuteFirst(plan, i, osFault, |start|).raised
      {
        raised := NativeStep(start, plan, i, raised, Call(PostMessage(h, messages[i])));
        if raised.Some? {
          ExecuteIgnoresStepsAfterRaise(plan, i + 1, osFault, |start|);
          return;
        }
      }
    }

    /** Three rounds of draining the message queue and pausing, stopping at the first call that raises. */
    method PumpAndPause() returns (raised: Option<Exception>)
      modifies this`trace
      ensures trace == old(trace) + Execute(PumpRounds(PUMP_ROUNDS), osFault, |old(trace)|).issued
      ensures raised == Execute(PumpRounds(PUMP_ROUNDS), osFault, |old(trace)|).raised
    {
      ghost var plan := PumpRounds(PUMP_ROUNDS);
      ghost var start := trace;
      raised := None;
      for round := 0 to PUMP_ROUNDS
        invariant raised.None?
        invariant trace == start + ExecuteFirst(plan, 2 * round, osFault, |start|).issued
        invariant raised == ExecuteFirst(plan, 2 * round, osFault, |start|).raised
      {
        PumpRoundsAt(PUMP_ROUNDS, round);
        raised := NativeStep(start, plan, 2 * round, raised, Call(PumpMessages));
        if raised.Some? {
          ExecuteIgnoresStepsAfterRaise(plan, 2 * round + 1, osFault, |start|);
          return;
        }
        raised := NativeStep(start, plan, 2 * round + 1, raised, Call(Sleep(PUMP_PAUSE_MS)));
      }
    }

    method StopTrayIcon()
      modifies this
      ensures Model() == StopSpec(old(Model()), osFault)
    {
      if icon.Some? {
        icon := Some(icon.value.(stopped := Has(true)));
      }
      var raised := RunStopBlock();
      reports := reports + Reported(STOP_FAILED, raised);
      CleanupIconResources();
    }

    method ShowWindow()
      modifies this, root
      ensures Model() == ShowSpec(old(Model()), osFault)
    {
      StopTrayIcon();
      RaiseWindow();
    }

    /** The second half of `show_window`, after the icon was stopped. */
    method RaiseWindow()
      modifies this, root
      ensures Model() == RaiseSpec(old(Model()))
    {
      if !root.viewable {
        root.Deiconify();
      }
      root.SetTopmost(true);
      root.FocusForce();
      root.Lift();
      root.After(TOPMOST_RESET_MS, DeferredAction.ClearTopmost);
      iconVisible := false;
      if hasShowCallback {
        showCallbacks := showCallbacks + 1;
      }
    }

    /** The `try` block of `_run_icon_safe`: pystray's loop, which returns or raises. */
    method RunIconBlock() returns (raised: Option<Exception>)
      modifies this`trace
      ensures trace == old(trace) + Execute([Call(RunIcon)], osFault, |old(trace)|).issued
      ensures raised == Execute([Call(RunIcon)], osFault, |old(trace)|).raised
    {
      raised := Fault(osFault, |trace|, RunIcon);
      trace := trace + [RunIcon];
      assert ExecuteFirst([Call(RunIcon)], 0, osFault, |old(trace)|) == Outcome([], None);
    }

    /** The body of worker `worker`, which `hide_window` started and which has not ended yet. */
    method RunIconSafe(worker: nat)
      requires worker in liveWorkers
      modifies this
      ensures Model() == RunWorkerSpec(old(Model()), osFault, worker)
    {
      RunLoopThenMark();
      CleanupIconResources();
      liveWorkers := liveWorkers - {worker};
    }

    /** `_run_icon_safe` up to its cleanup: the loop for a live icon, then the `finally` marks. */
    method RunLoopThenMark()
      modifies this
      ensures Model() == WorkerLoopSpec(old(Model()), osFault)
    {
      var raised: Option<Exception> := None;
      if icon.Some? && icon.value.stopped != Has(true) {
        icon := Some(icon.value.(stopped := Has(false)));
        raised := RunIconBlock();
      }
      reports := reports + Reported(RUN_FAILED, raised);
      if icon.Some? {
        icon := Some(icon.value.(stopped := Has(true)));
      }
      iconRunning := false;
    }

    /** `onMainThread` says whether the caller is the thread that owns the Tk window. */
    method QuitApp(onMainThread: bool)
      modifies this, root
      ensures Model() == QuitSpec(old(Model()), osFault, onMainThread)
    {
      exiting := true;
      if !onMainThread {
        root.AfterIdle(DeferredAction.PerformCleanup);
        if iconRunning {
          StopTrayIcon();
        }
      } else {
        PerformCleanup();
      }
    }

    method PerformCleanup()
      modifies this
      ensures Model() == PerformCleanupSpec(old(Model()))
    {
      if hasQuitCallback {
        quitCallbacks := quitCallbacks + 1;
      }
    }
  }
}
