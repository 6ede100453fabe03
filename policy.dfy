/** The decision engine of the power manager, as pure functions: from the
    configuration, the manager's state and the answers its collaborators give
    during one callback, to the list of calls the callback makes on those
    collaborators (DPMS, the screen locker, the power backend, logind or
    ConsoleKit, the session manager, the idle-time notifier). */
module Policy {

  /** Unsigned 32-bit values, the width of `guint`. */
  type uint32 = x: int | 0 <= x < 0x1_0000_0000

  /** A shutdown request as the configuration stores it. `Unrecognized`
      stands for any value outside the enumeration. */
  datatype ShutdownRequest =
    | DoNothing
    | DoSuspend
    | DoHibernate
    | DoShutdown
    | Ask
    | Unrecognized(code: int)

  datatype ButtonKey =
    | PowerOff
    | Sleep
    | Hibernate
    | MonBrightnessUp
    | MonBrightnessDown
    | KbdBrightnessUp
    | KbdBrightnessDown
    | OtherKey

  /** What closing the lid does. */
  datatype LidAction = LidNothing | LidSuspend | LidHibernate | LidLockScreen

  /** Alarm ids of the idle-time notifier; other components arm alarms of their own. */
  datatype AlarmId = InactivityOnAc | InactivityOnBattery | OtherAlarm(code: nat)

  /** The settings the decision engine reads, one field per setting. */
  datatype Config = Config(
    powerSwitch: ShutdownRequest,
    sleepSwitch: ShutdownRequest,
    hibernateSwitch: ShutdownRequest,
    lidOnAc: LidAction,
    lidOnBattery: LidAction,
    idleSleepOnAc: ShutdownRequest,
    idleSleepOnBattery: ShutdownRequest,
    idleTimeoutOnAc: uint32,        // minutes; NeverTimeout removes the alarm
    idleTimeoutOnBattery: uint32,
    logindHandlePowerKey: bool,
    logindHandleSuspendKey: bool,
    logindHandleHibernateKey: bool,
    logindHandleLidSwitch: bool)

  /** Facts fixed when the manager starts: whether logind runs (otherwise
      ConsoleKit is the shutdown backend) and whether the session manager
      accepted the connection. */
  datatype Backends = Backends(logindRunning: bool, sessionManaged: bool)

  /** The answers the collaborators give during one callback. */
  datatype Env = Env(
    onBattery: bool,
    multihead: bool,
    presentation: bool,
    lockSucceeds: bool,     // one of the screen-lock tools ran
    shutdownFails: bool)    // the backend's shutdown call set an error

  datatype ShutdownHint = HintHalt | HintAsk

  datatype DpmsLevel = DpmsOn | DpmsOff

  /** One call made on a collaborator. `LogindInhibit` records the Inhibit
      call together with the descriptor it gave back (-1 when it failed). */
  datatype Effect =
    | PowerSuspend(force: bool)
    | PowerHibernate(force: bool)
    | LogindShutdown
    | ConsoleKitShutdown
    | SessionShutdown(hint: ShutdownHint)
    | DpmsForce(level: DpmsLevel)
    | LockScreen
    | LockFailedDialog
    | AlarmSet(id: AlarmId, timeoutMs: uint32)
    | AlarmRemove(id: AlarmId)
    | AlarmResetAll
    | LogindInhibit(what: string, who: string, why: string, mode: string, fd: int)
    | CloseFd(fd: int)

  /** Minimum time between two honoured button presses, in milliseconds. */
  const SleepKeyTimeoutMs := 6000

  /** The idle-timeout setting that means "never". */
  const NeverTimeout := 14

  predicate IsLockEffect(e: Effect)
  {
    e.LogindInhibit? || e.CloseFd?
  }

  /** The calls do not touch the inhibitor lock. */
  predicate LockFree(s: seq<Effect>)
  {
    forall i :: 0 <= i < |s| ==> !IsLockEffect(s[i])
  }

  // ---------------------------------------------------------------- dispatch

  /** Shutdown through the active backend, then a halt request to the session
      manager if that failed and the session is managed. */
  function ShutdownEffects(b: Backends, fails: bool): (r: seq<Effect>)
    ensures LockFree(r)
    ensures 1 <= |r| <= 2
    ensures r[0] == LogindShutdown || r[0] == ConsoleKitShutdown
    ensures r[0] == LogindShutdown <==> b.logindRunning
    ensures SessionShutdown(HintHalt) in r <==> fails && b.sessionManaged
    ensures SessionShutdown(HintAsk) !in r
    ensures |r| == (if fails && b.sessionManaged then 2 else 1)
  {
    [if b.logindRunning then LogindShutdown else ConsoleKitShutdown]
      + (if fails && b.sessionManaged then [SessionShutdown(HintHalt)] else [])
  }

  /** Asking the user goes through the session manager, when there is one. */
  function AskShutdownEffects(b: Backends): (r: seq<Effect>)
    ensures LockFree(r)
    ensures r != [] <==> b.sessionManaged
    ensures |r| <= 1
    ensures forall e :: e in r ==> e == SessionShutdown(HintAsk)
  {
    if b.sessionManaged then [SessionShutdown(HintAsk)] else []
  }

  /** The dispatcher: turns a request and a force flag into calls. */
  function SleepRequestEffects(b: Backends, req: ShutdownRequest, force: bool, fails: bool): (r: seq<Effect>)
    ensures LockFree(r)
    ensures r == [] <==> req.DoNothing? || req.Unrecognized? || (req.Ask? && !b.sessionManaged)
    ensures forall e :: e in r && (e.PowerSuspend? || e.PowerHibernate?) ==> e.force == force
    ensures PowerSuspend(force) in r <==> req.DoSuspend?
    ensures PowerHibernate(force) in r <==> req.DoHibernate?
    ensures req.DoSuspend? ==> r == [PowerSuspend(force)]
    ensures req.DoHibernate? ==> r == [PowerHibernate(force)]
    ensures req.DoShutdown? ==> r == ShutdownEffects(b, fails)
    ensures req.Ask? ==> r == AskShutdownEffects(b)
  {
    match req
    case DoNothing => []
    case DoSuspend => [PowerSuspend(force)]
    case DoHibernate => [PowerHibernate(force)]
    case DoShutdown => ShutdownEffects(b, fails)
    case Ask => AskShutdownEffects(b)
    case Unrecognized(_) => []
  }

  /** The force flag matters only to suspend and hibernate. */
  lemma ForceOnlyReachesSleep(b: Backends, req: ShutdownRequest, fails: bool)
    requires !req.DoSuspend? && !req.DoHibernate?
    ensures SleepRequestEffects(b, req, true, fails) == SleepRequestEffects(b, req, false, fails)
  {
  }

  function CountOf(s: seq<Effect>, e: Effect): nat
  {
    if s == [] then 0 else (if s[0] == e then 1 else 0) + CountOf(s[1..], e)
  }

  /** A shutdown request makes exactly one backend call, and exactly one
      halt request follows it when the backend fails in a managed session. */
  lemma ShutdownFallbackOnce(b: Backends, force: bool, fails: bool)
    ensures var r := SleepRequestEffects(b, DoShutdown, force, fails);
      && CountOf(r, SessionShutdown(HintHalt)) == (if fails && b.sessionManaged then 1 else 0)
      && CountOf(r, LogindShutdown) + CountOf(r, ConsoleKitShutdown) == 1
  {
    var r := SleepRequestEffects(b, DoShutdown, force, fails);
    var backend := if b.logindRunning then LogindShutdown else ConsoleKitShutdown;
    if fails && b.sessionManaged {
      assert r == [backend, SessionShutdown(HintHalt)];
      assert r[1..] == [SessionShutdown(HintHalt)] && r[1..][1..] == [];
      assert CountOf(r[1..], SessionShutdown(HintHalt)) == 1;
      assert CountOf(r[1..], LogindShutdown) == 0 && CountOf(r[1..], ConsoleKitShutdown) == 0;
    } else {
      assert r == [backend] && r[1..] == [];
    }
  }

  // ----------------------------------------------------------------- buttons

  predicate IsBrightnessKey(key: ButtonKey)
  {
    key.MonBrightnessUp? || key.MonBrightnessDown? || key.KbdBrightnessUp? || key.KbdBrightnessDown?
  }

  /** The configured request of a sleep, hibernate or power button; other keys have none. */
  function ButtonRequest(cfg: Config, key: ButtonKey): (r: ShutdownRequest)
    requires key.PowerOff? || key.Sleep? || key.Hibernate?
  {
    match key
    case PowerOff => cfg.powerSwitch
    case Sleep => cfg.sleepSwitch
    case Hibernate => cfg.hibernateSwitch
  }

  /** What a button press does: whether it restarts the debounce timer, and its calls. */
  datatype Reaction = Reaction(resetTimer: bool, effects: seq<Effect>)

  /** A button press, `elapsedMs` after the last reset of the debounce timer. */
  function ButtonPressReaction(cfg: Config, b: Backends, key: ButtonKey, elapsedMs: int, fails: bool): (rx: Reaction)
    ensures LockFree(rx.effects)
    ensures rx.resetTimer ==> elapsedMs > SleepKeyTimeoutMs
    ensures forall e :: e in rx.effects && (e.PowerSuspend? || e.PowerHibernate?) ==> !e.force
  {
    if IsBrightnessKey(key) || key.OtherKey? then Reaction(false, [])
    else
      var req := ButtonRequest(cfg, key);
      if req.Ask? then Reaction(false, AskShutdownEffects(b))
      else if elapsedMs > SleepKeyTimeoutMs then Reaction(true, SleepRequestEffects(b, req, false, fails))
      else Reaction(false, [])
  }

  /** Brightness keys (and keys the manager does not know) do nothing at all. */
  lemma BrightnessKeysIgnored(cfg: Config, b: Backends, key: ButtonKey, elapsedMs: int, fails: bool)
    requires IsBrightnessKey(key) || key.OtherKey?
    ensures ButtonPressReaction(cfg, b, key, elapsedMs, fails) == Reaction(false, [])
  {
  }

  /** A button mapped to Ask asks at once, whatever the timer says, and leaves the timer alone. */
  lemma AskButtonSkipsDebounce(cfg: Config, b: Backends, key: ButtonKey, elapsedMs: int, fails: bool)
    requires key.PowerOff? || key.Sleep? || key.Hibernate?
    requires ButtonRequest(cfg, key) == Ask
    ensures ButtonPressReaction(cfg, b, key, elapsedMs, fails) == Reaction(false, AskShutdownEffects(b))
  {
  }

  /** Any other mapping, DoNothing included, is dispatched unforced exactly
      when more than the debounce time has passed, and the timer is reset
      exactly then. */
  lemma ButtonDebounce(cfg: Config, b: Backends, key: ButtonKey, elapsedMs: int, fails: bool)
    requires key.PowerOff? || key.Sleep? || key.Hibernate?
    requires ButtonRequest(cfg, key) != Ask
    ensures var rx := ButtonPressReaction(cfg, b, key, elapsedMs, fails);
      && (rx.resetTimer <==> elapsedMs > SleepKeyTimeoutMs)
      && rx.effects == (if elapsedMs > SleepKeyTimeoutMs
                        then SleepRequestEffects(b, ButtonRequest(cfg, key), false, fails) else [])
  {
  }

  /** Two presses of a button mapped to suspend, hibernate or shutdown: when
      the first is honoured at `t1`, the second at `t2` is honoured only if
      it comes more than six seconds later, and then it makes the same calls. */
  lemma TwoPresses(cfg: Config, b: Backends, key: ButtonKey, lastReset: int, t1: int, t2: int, fails: bool)
    requires key.PowerOff? || key.Sleep? || key.Hibernate?
    requires ButtonRequest(cfg, key) in {DoSuspend, DoHibernate, DoShutdown}
    requires t1 - lastReset > SleepKeyTimeoutMs
    ensures var first := ButtonPressReaction(cfg, b, key, t1 - lastReset, fails);
      var reset := if first.resetTimer then t1 else lastReset;
      var second := ButtonPressReaction(cfg, b, key, t2 - reset, fails);
      && first.resetTimer && first.effects != []
      && (t2 - t1 <= SleepKeyTimeoutMs ==> second.effects == [])
      && (t2 - t1 > SleepKeyTimeoutMs ==> second.effects == first.effects)
  {
    ButtonDebounce(cfg, b, key, t1 - lastReset, fails);
    ButtonDebounce(cfg, b, key, t2 - t1, fails);
  }

  // --------------------------------------------------------------------- lid

  /** The shutdown request a sleeping lid action is passed on as. */
  function LidRequest(a: LidAction): (r: ShutdownRequest)
    requires a.LidSuspend? || a.LidHibernate?
    ensures r.DoSuspend? <==> a.LidSuspend?
    ensures r.DoSuspend? || r.DoHibernate?
  {
    if a.LidSuspend? then DoSuspend else DoHibernate
  }

  /** logind owns the lid switch when it runs and is configured to handle it. */
  predicate LidDeferred(cfg: Config, b: Backends)
  {
    b.logindRunning && cfg.logindHandleLidSwitch
  }

  /** The lid action that applies on the current power source. */
  function LidActionFor(cfg: Config, onBattery: bool): LidAction
  {
    if onBattery then cfg.lidOnBattery else cfg.lidOnAc
  }

  /** A lid change. Inhibition is not an input: a lid event is never held back by it. */
  function LidChangedEffects(cfg: Config, b: Backends, closed: bool, env: Env): (r: seq<Effect>)
    ensures LockFree(r)
    ensures forall e :: e in r && (e.PowerSuspend? || e.PowerHibernate?) ==> e.force
    ensures closed && LidActionFor(cfg, env.onBattery) != LidSuspend && LidActionFor(cfg, env.onBattery) != LidHibernate ==>
      forall e :: e in r ==> e == DpmsForce(DpmsOff) || e == LockScreen || e == LockFailedDialog
  {
    if LidDeferred(cfg, b) then []
    else
      var action := LidActionFor(cfg, env.onBattery);
      if closed then
        match action
        case LidNothing => if !env.multihead then [DpmsForce(DpmsOff)] else []
        case LidLockScreen =>
          if !env.multihead then [LockScreen] + (if env.lockSucceeds then [] else [LockFailedDialog]) else []
        case _ => SleepRequestEffects(b, LidRequest(action), true, env.shutdownFails)
      else
        [DpmsForce(DpmsOn)]
  }

  /** When logind owns the lid switch, the manager does nothing on a lid change. */
  lemma LidDeferredDoesNothing(cfg: Config, b: Backends, closed: bool, env: Env)
    requires LidDeferred(cfg, b)
    ensures LidChangedEffects(cfg, b, closed, env) == []
  {
  }

  /** Opening the lid forces the display on, whatever the action, multihead or lock state. */
  lemma LidOpenForcesDisplayOn(cfg: Config, b: Backends, env: Env)
    requires !LidDeferred(cfg, b)
    ensures LidChangedEffects(cfg, b, false, env) == [DpmsForce(DpmsOn)]
  {
  }

  /** Closing the lid with a sleeping action dispatches it forced. */
  lemma LidCloseForcesSleep(cfg: Config, b: Backends, env: Env)
    requires !LidDeferred(cfg, b)
    ensures LidActionFor(cfg, env.onBattery) == LidSuspend ==>
      LidChangedEffects(cfg, b, true, env) == [PowerSuspend(true)]
    ensures LidActionFor(cfg, env.onBattery) == LidHibernate ==>
      LidChangedEffects(cfg, b, true, env) == [PowerHibernate(true)]
  {
  }

  /** Closing the lid turns the display off or locks the screen only on a
      single head; a failed lock, and only that, shows the error dialog. */
  lemma LidCloseDisplayAndLock(cfg: Config, b: Backends, env: Env)
    requires !LidDeferred(cfg, b)
    ensures var r := LidChangedEffects(cfg, b, true, env);
      var action := LidActionFor(cfg, env.onBattery);
      && (DpmsForce(DpmsOff) in r <==> action == LidNothing && !env.multihead)
      && (LockScreen in r <==> action == LidLockScreen && !env.multihead)
      && (LockFailedDialog in r <==> action == LidLockScreen && !env.multihead && !env.lockSucceeds)
      && ((action == LidNothing || action == LidLockScreen) && env.multihead ==> r == [])
      && (action == LidNothing && !env.multihead ==> r == [DpmsForce(DpmsOff)])
      && (action == LidLockScreen && !env.multihead ==>
            r == (if env.lockSucceeds then [LockScreen] else [LockScreen, LockFailedDialog]))
  {
  }

  // -------------------------------------------------------------- idle alarm

  /** The alarm that belongs to the current power source. */
  predicate MatchesPowerSource(id: AlarmId, onBattery: bool)
  {
    (id.InactivityOnAc? && !onBattery) || (id.InactivityOnBattery? && onBattery)
  }

  /** The configured idle request of an inactivity alarm. */
  function IdleRequest(cfg: Config, id: AlarmId): ShutdownRequest
    requires id.InactivityOnAc? || id.InactivityOnBattery?
  {
    if id.InactivityOnAc? then cfg.idleSleepOnAc else cfg.idleSleepOnBattery
  }

  /** An alarm of the idle-time notifier went off. */
  function AlarmTimeoutEffects(cfg: Config, b: Backends, id: AlarmId, inhibited: bool, env: Env): (r: seq<Effect>)
    ensures LockFree(r)
    ensures forall e :: e in r && (e.PowerSuspend? || e.PowerHibernate?) ==> !e.force
  {
    if env.presentation then []
    else if id.InactivityOnAc? || id.InactivityOnBattery? then
      if inhibited then []
      else
        var mode := IdleRequest(cfg, id);
        if id.InactivityOnAc? && !env.onBattery then SleepRequestEffects(b, mode, false, env.shutdownFails)
        else if id.InactivityOnBattery? && env.onBattery then SleepRequestEffects(b, mode, false, env.shutdownFails)
        else []
    else []
  }

  /** An alarm makes calls only outside presentation mode, while nothing
      inhibits, and when it belongs to the current power source; it then
      dispatches the configured idle request unforced. */
  lemma AlarmGate(cfg: Config, b: Backends, id: AlarmId, inhibited: bool, env: Env)
    ensures var r := AlarmTimeoutEffects(cfg, b, id, inhibited, env);
      && (r != [] ==> !env.presentation && !inhibited && MatchesPowerSource(id, env.onBattery))
      && (!env.presentation && !inhibited && MatchesPowerSource(id, env.onBattery) ==>
            r == SleepRequestEffects(b, IdleRequest(cfg, id), false, env.shutdownFails))
  {
  }

  /** The idle-time notifier call for one threshold: the sentinel removes the
      alarm; any other number of minutes arms it in milliseconds, computed in
      unsigned 32-bit arithmetic. */
  function IdleAlarmCall(id: AlarmId, minutes: uint32): (e: Effect)
    ensures e.AlarmSet? || e.AlarmRemove?
    ensures e.id == id
    ensures e.AlarmRemove? <==> minutes == NeverTimeout
  {
    if minutes == NeverTimeout then AlarmRemove(id)
    else AlarmSet(id, (minutes * 1000 * 60) % 0x1_0000_0000)
  }

  /** An armed threshold that fits in 32 bits as milliseconds gives its minutes back. */
  lemma IdleAlarmMinutes(id: AlarmId, minutes: uint32)
    requires minutes != NeverTimeout && minutes * 60000 < 0x1_0000_0000
    ensures IdleAlarmCall(id, minutes).AlarmSet?
    ensures IdleAlarmCall(id, minutes).timeoutMs == minutes * 60000
    ensures IdleAlarmCall(id, minutes).timeoutMs / 60000 == minutes
  {
  }

  /** Setting both thresholds: the AC alarm from the AC setting, then the battery alarm from the battery setting. */
  function SetIdleAlarmEffects(cfg: Config): (r: seq<Effect>)
    ensures LockFree(r)
    ensures |r| == 2
    ensures forall e :: e in r ==> e.AlarmSet? || e.AlarmRemove?
    ensures r[0].id == InactivityOnAc && r[1].id == InactivityOnBattery
    ensures r[0].AlarmRemove? <==> cfg.idleTimeoutOnAc == NeverTimeout
    ensures r[1].AlarmRemove? <==> cfg.idleTimeoutOnBattery == NeverTimeout
    ensures r[0].AlarmSet? ==> r[0].timeoutMs == (cfg.idleTimeoutOnAc * 60000) % 0x1_0000_0000
    ensures r[1].AlarmSet? ==> r[1].timeoutMs == (cfg.idleTimeoutOnBattery * 60000) % 0x1_0000_0000
  {
    [IdleAlarmCall(InactivityOnAc, cfg.idleTimeoutOnAc), IdleAlarmCall(InactivityOnBattery, cfg.idleTimeoutOnBattery)]
  }
}
