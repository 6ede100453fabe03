# xfce4-power-manager decision engine, modelled in Dafny

This project models the policy core of xfce4-power-manager: how the manager
object reacts to a button press, a lid change, an idle alarm, an inhibition
change, a switch between AC and battery, and the waking-up and sleeping
signals. For each event it decides on a shutdown request (nothing, suspend,
hibernate, shutdown, ask) and dispatches it. Shutdown goes to logind or
ConsoleKit and falls back to the session manager. The project also models how
the idle alarms are armed, how the logind inhibitor lock is built, held and
released, and the three lookup tables of `xfpm-power-common.c`.

Files and modules:

- `policy.dfy` (module `Policy`): the typed configuration, the collaborators'
  answers (`Env`) and the collaborator calls (`Effect`). It holds the pure
  decision functions, one per callback, and the lemmas about them.
- `systemd_events.dfy` (module `SystemdEvents`): the colon-joined list of
  events claimed from logind. `GetSystemdEvents` and `ConcatEvents` build it
  with the loop of `xfpm_manager_get_systemd_events`. `Join` and `Split` are a round trip. The module also
  holds the guard in front of logind's Inhibit call.
- `lock_trace.dfy` (module `LockTrace`): what a trace of calls says about the
  inhibitor lock. `Held` is the descriptor held at the end of a trace.
  `Disciplined` means the trace never takes a second lock and never closes a
  descriptor it does not hold.
- `manager.dfy` (module `Manager`): the class `XfpmManager`. Its fields are
  `inhibited`, the time of the last debounce-timer reset, `inhibitFd` and
  `trace`, plus the constants `logindRunning`, `sessionManaged` and
  `systemBus`. There is one method per callback. Each method appends the
  calls it makes to `trace`, and its postcondition names the decision
  function that gives those calls. `Valid()` ties `inhibitFd` to the lock the
  trace holds.
- `power_common.dfy` (module `PowerCommon`): the device-kind, technology and
  icon tables.
- `optional.dfy`: an `Option` datatype.

Modelling choices:

- Collaborators are not modelled. These are DPMS, the screen-lock tools, the
  upower-backed power object, logind, ConsoleKit, the session-manager client
  and the idle-time notifier. Every call made on them is an `Effect` appended
  to the trace.
- What a collaborator answers during a callback is a parameter:
  - `Env` holds on-battery, multihead, presentation mode, whether a lock tool
    ran, and whether the backend's shutdown call failed.
  - The login1 owner check and the Inhibit reply are parameters of the
    inhibit methods.
- `LOGIND_RUNNING()` is one boolean fixed when the manager is created.
- The `GTimer` becomes integer milliseconds. "Elapsed > 6.0 s" is
  `now - lastReset > 6000`.
- Idle thresholds are `guint` minutes. `minutes * 1000 * 60` is computed
  modulo 2^32, as unsigned C arithmetic does. `IdleAlarmMinutes` shows that
  the value is exact whenever it fits.
- The lid action is passed to the dispatcher as a shutdown request.
  `xfpm-enum.h` is not part of this model. `LidRequest` maps suspend to
  suspend and hibernate to hibernate. This assumes the two enumerations
  number these values alike.
- The values of upower's device kinds and of the `XFPM_*_ICON` macros are not
  part of this model. Device kinds are an enumeration, with `Unlisted` for
  kinds that have no case. Icons are an enumeration, plus the literal
  `"monitor"`. `_()` is the identity.
- The C code uses -1 for "no inhibitor lock": `xfpm_manager_inhibit_sleep_systemd`
  starts its descriptor at -1 (src/xfpm-manager.c:544) and returns -1 on
  every early path that obtains none (lines 551, 554, 560). `quit` and
  `systemd_events_changed` close only descriptors >= 0 (lines 182 and 616).
  Together these mean a descriptor is closed only if logind handed it out,
  and it is released before it is replaced and on exit. The code keeps this
  only when a system bus connection exists (see Findings). The class follows
  the intended behaviour: `inhibitFd` starts as -1.

## Model

| member | source | states |
|---|---|---|
| `PowerCommon.TranslateDeviceType` | src/xfpm-power-common.c:38-68 | every kind gets one of the eleven fixed names, never an empty one |
| `PowerCommon.DeviceTypeNameIdentifiesKind` | src/xfpm-power-common.c:41-65 | each kind with a case has a name of its own; the reverse lookup gives that kind back |
| `PowerCommon.DeviceTypeFallback` | src/xfpm-power-common.c:43-67 | "Battery" goes exactly to the battery kind and to the kinds without a case, including the media player |
| `PowerCommon.TranslateTechnology` | src/xfpm-power-common.c:74-95 | values 0..6 get the seven fixed names in order; every result is one of them |
| `PowerCommon.TechnologyUnknown` | src/xfpm-power-common.c:78-94 | "Unknown" is given exactly to 0 and to every value above 6 |
| `PowerCommon.TechnologyRoundTrip` | src/xfpm-power-common.c:74-95 | the name gives back the value for 0..6, and 0 for every other value |
| `PowerCommon.GetIconName` | src/xfpm-power-common.c:97-128 | every kind gets an icon; the only literal icon name is "monitor" |
| `PowerCommon.MonitorIconKinds` | src/xfpm-power-common.c:111-114 | monitor and computer, and only they, get "monitor" |
| `PowerCommon.PhoneIconKinds` | src/xfpm-power-common.c:117-122 | phone, tablet and media player, and only they, get the phone icon |
| `PowerCommon.BatteryIconKinds` | src/xfpm-power-common.c:101-127 | battery, unknown and every kind without a case, and only they, get the battery icon |
| `Policy.ShutdownEffects` | src/xfpm-manager.c:218-236 | one shutdown call goes to logind exactly when logind runs, otherwise to ConsoleKit; a halt request to the session manager follows exactly when the call failed and the session is managed; no other call is made; never an ask |
| `Policy.ShutdownFallbackOnce` | src/xfpm-manager.c:218-236 | a shutdown request makes exactly one backend call, and exactly one halt request (or none when the call succeeded or there is no session manager) |
| `Policy.AskShutdownEffects` | src/xfpm-manager.c:238-243 | asking emits exactly one ask request to the session manager when the session is managed, nothing otherwise |
| `Policy.SleepRequestEffects` | src/xfpm-manager.c:245-268 | DoNothing and unrecognised requests, and Ask without a session manager, emit nothing; suspend and hibernate are emitted exactly for those requests, with the caller's force flag; suspend and hibernate emit exactly their own call, DoShutdown exactly the shutdown path and Ask exactly the ask path; nothing touches the inhibitor lock |
| `Policy.ForceOnlyReachesSleep` | src/xfpm-manager.c:245-268 | the force flag changes nothing for requests other than suspend and hibernate |
| `Policy.ButtonPressReaction` | src/xfpm-manager.c:276-324 | a press resets the debounce timer only after more than 6000 ms; a button never forces suspend or hibernate |
| `Policy.BrightnessKeysIgnored` | src/xfpm-manager.c:283-310 | monitor and keyboard brightness keys, and unknown keys, neither reset the timer nor make any call |
| `Policy.AskButtonSkipsDebounce` | src/xfpm-manager.c:314-315 | a button mapped to Ask asks at any elapsed time and leaves the timer alone |
| `Policy.ButtonDebounce` | src/xfpm-manager.c:316-323 | any other mapping, DoNothing included, resets the timer and is dispatched unforced exactly when more than 6000 ms have elapsed |
| `Policy.TwoPresses` | src/xfpm-manager.c:316-323 | after an honoured press, a second press within 6 s does nothing, and a later one makes the same calls again |
| `Policy.LidRequest` | src/xfpm-manager.c:372-380 | a sleeping lid action is passed on as the matching suspend or hibernate request |
| `Policy.LidChangedEffects` | src/xfpm-manager.c:326-389 | a lid change depends on no inhibition; any suspend or hibernate it makes is forced; a close whose action is neither suspend nor hibernate only turns the display off, locks the screen or shows the lock-failure dialog |
| `Policy.LidDeferredDoesNothing` | src/xfpm-manager.c:332-340 | when logind runs and handles the lid switch, a lid change makes no call |
| `Policy.LidOpenForcesDisplayOn` | src/xfpm-manager.c:383-388 | opening the lid forces the display on and does nothing else, whatever the action or multihead state |
| `Policy.LidCloseForcesSleep` | src/xfpm-manager.c:372-380 | closing the lid with a suspend or hibernate action on the current power source dispatches it with force set |
| `Policy.LidCloseDisplayAndLock` | src/xfpm-manager.c:350-371 | on close, display-off and lock happen exactly for their action on a single head, and the error dialog exactly when that lock failed; with multihead these two actions do nothing; on a single head Nothing gives exactly display-off and LockScreen exactly the lock, followed by the dialog only when it failed |
| `Policy.AlarmTimeoutEffects` | src/xfpm-manager.c:397-434 | an alarm never forces suspend or hibernate and never touches the inhibitor lock |
| `Policy.AlarmGate` | src/xfpm-manager.c:397-434 | an alarm makes calls only outside presentation mode, while not inhibited, and for the alarm of the current power source; in that case it dispatches that source's idle request unforced |
| `Policy.IdleAlarmCall` | src/xfpm-manager.c:452-459 | the threshold 14 removes the alarm and any other value arms it; either way only the given alarm id is touched |
| `Policy.IdleAlarmMinutes` | src/xfpm-manager.c:458 | an armed threshold that fits in 32 bits is exactly minutes * 60000 ms and gives its minutes back |
| `Policy.SetIdleAlarmEffects` | src/xfpm-manager.c:494-500 | setting the thresholds makes two calls, first on the AC alarm, then on the battery alarm; each removes its alarm exactly when its own threshold is 14, and otherwise arms it at that threshold in milliseconds modulo 2^32 |
| `SystemdEvents.ClaimedEvents` | src/xfpm-manager.c:516-523 | at most four well-formed event names, each one of the four known events, without duplicates and strictly in the fixed order power key, suspend key, hibernate key, lid switch |
| `SystemdEvents.ClaimedEventsMembership` | src/xfpm-manager.c:516-523 | each event is claimed exactly when its logind-handle setting is false |
| `SystemdEvents.SplitJoin` | src/xfpm-manager.c:525-532 | splitting a joined non-empty list at ':' gives the list back |
| `SystemdEvents.ConcatEvents` | src/xfpm-manager.c:525-532 | the loop's result is the names joined with ':', and empty exactly when the list is |
| `SystemdEvents.GetSystemdEvents` | src/xfpm-manager.c:502-536 | the result is the claimed events joined with ':'; it is "" exactly when all four settings are true; otherwise splitting it gives the claimed events in order |
| `SystemdEvents.InhibitSleepSystemd` | src/xfpm-manager.c:538-611 | no Inhibit call and -1 when the list is empty, logind is not running or login1 has no owner; otherwise one call with the list and the fixed who/why/"block", and the descriptor kept is exactly the one in logind's reply, or -1 when there is no reply |
| `Manager.ReleaseEffects` | src/xfpm-manager.c:182-183 | a descriptor is closed exactly when it is >= 0, and nothing else is closed |
| `Manager.StrayCloseAsWritten` | src/xfpm-manager.c:613-621 | as written, with no system bus, quitting closes descriptor 0, which was never obtained; after a setting change it is closed twice |
| `Manager.XfpmManager.constructor` | src/xfpm-manager.c:119-127 | a new manager is not inhibited, holds no lock, starts its debounce timer now and has made no call |
| `Manager.XfpmManager.Start` | src/xfpm-manager.c:696-728 | with a system bus it takes the inhibitor lock through the guard, then sets both idle alarms |
| `Manager.XfpmManager.Acquire` | src/xfpm-manager.c:619-620 | takes the lock when none is held; the stored descriptor is the outcome's, and the lock discipline holds |
| `Manager.XfpmManager.Shutdown` | src/xfpm-manager.c:218-236 | appends exactly `ShutdownEffects` and changes no other field |
| `Manager.XfpmManager.AskShutdown` | src/xfpm-manager.c:238-243 | appends exactly `AskShutdownEffects` and changes no other field |
| `Manager.XfpmManager.SleepRequest` | src/xfpm-manager.c:245-268 | appends exactly the dispatcher's calls for the request and force flag |
| `Manager.XfpmManager.ResetSleepTimer` | src/xfpm-manager.c:270-274 | the debounce timer restarts now; no call is made |
| `Manager.XfpmManager.ButtonPressed` | src/xfpm-manager.c:276-324 | the calls and the timer reset are those of `ButtonPressReaction` for the time since the last reset; `inhibited` and the lock are untouched |
| `Manager.XfpmManager.LidChanged` | src/xfpm-manager.c:326-389 | appends `LidChangedEffects`, which does not read `inhibited` |
| `Manager.XfpmManager.InhibitChanged` | src/xfpm-manager.c:391-395 | stores the new inhibition flag and does nothing else |
| `Manager.XfpmManager.AlarmTimeout` | src/xfpm-manager.c:397-434 | appends `AlarmTimeoutEffects` for the stored inhibition flag; no field changes |
| `Manager.XfpmManager.SetIdleAlarmOnAc` | src/xfpm-manager.c:436-460 | one notifier call on the AC alarm, the one `IdleAlarmCall` gives for the AC threshold |
| `Manager.XfpmManager.SetIdleAlarmOnBattery` | src/xfpm-manager.c:462-486 | one notifier call on the battery alarm, the one `IdleAlarmCall` gives for the battery threshold |
| `Manager.XfpmManager.SetIdleAlarm` | src/xfpm-manager.c:494-500 | both calls, AC first |
| `Manager.XfpmManager.OnBatteryChanged` | src/xfpm-manager.c:488-492 | a power-source change makes exactly one reset-all call on the idle notifier |
| `Manager.XfpmManager.SystemdEventsChanged` | src/xfpm-manager.c:613-621 | a held descriptor is closed before a new lock is requested; the descriptor is replaced only when there is a system bus; the lock discipline holds |
| `Manager.XfpmManager.Quit` | src/xfpm-manager.c:175-187 | quitting closes the held descriptor, if any, and leaves no lock held; only a held descriptor is closed |

## Left out

- The D-Bus work of the Inhibit call (src/xfpm-manager.c:562-610) is not modelled: message construction, the blocking send and reply parsing. The call is abstract; its reply is an optional descriptor.
- Bus-name reservation and release, object registration, and the `Quit`, `Restart`, `GetConfig` and `GetInfo` methods on the session bus are not modelled. They are D-Bus plumbing.
- `xfpm_manager_get_config` is not modelled. It queries foreign objects; its one local step turns the mapped-button bitmask into three booleans.
- Process lifecycle is not modelled. This covers session-manager client setup in `xfpm_manager_new`, finalize and reference counting, `gtk_main_quit`, the restart spawned by `g_spawn_command_line_async`, and the system-bus-connection callback (a quit followed by a restart).
- `xfpm_manager_start` is modelled as `Start` only: it takes the inhibitor lock and sets the idle alarms. The signal wiring is not modelled. Each method is named after the callback its signal reaches. The power object's "ask-shutdown" and "shutdown" signals reach `AskShutdown` and `Shutdown`.
- Logging is not modelled. This covers debug traces, `g_warning`, and the warnings of `g_warn_if_reached` and `g_return_if_reached`. An unknown key or request therefore shows up only as "no call".
- The floating-point `GTimer` is not modelled. Time is integer milliseconds, so differences below one millisecond around the 6-second threshold are not represented.
- The collaborators' internals are not modelled: DPMS, the lock-screen tools, upower, logind, ConsoleKit and the idle-time notifier. Also not modelled are what a suspend or hibernate failure reports, and the notifier re-arming its alarms.
- `src/xfpm-tray-icon.c` is not part of this model. It is status-icon, menu and dialog code.

## Findings

| source | as written | input that shows it | evidently intended | confidence | as-written member | corrected member |
|---|---|---|---|---|---|---|
| src/xfpm-manager.c:613-621 | `inhibit_fd` is assigned only when a system bus connection exists (lines 619-620, 699-700). Otherwise it keeps the zero-filled initial value 0, so `quit` (lines 182-183) and every logind-handle setting change close descriptor 0, which was never obtained from logind. | No system bus at start, then a logind-handle setting change, then quit: descriptor 0 is closed twice. | `inhibit_fd` starts as -1, so only descriptors obtained from logind are ever closed, and at most one lock is held at a time. | medium, not executed | `Manager.StrayCloseAsWritten` | `Manager.XfpmManager.constructor` |
