/** The power manager object: the state its callbacks read and write, and one
    method per callback. Every call a callback makes on a collaborator is
    appended to `trace`; the decisions themselves are the functions of
    module Policy, and the inhibitor lock's guard is in SystemdEvents. */
module Manager {
  import opened Optional
  import opened Policy
  import opened SystemdEvents
  import opened LockTrace

  /** No inhibitor descriptor. */
  const NoFd := -1

  /** The value `inhibit_fd` has before anything assigns it: the private
      part of the object is zero-filled when it is created. */
  const UninitialisedFd := 0

  /** Releasing the inhibitor lock: close the descriptor if it is one. */
  function ReleaseEffects(fd: int): (r: seq<Effect>)
    ensures r != [] <==> fd >= 0
    ensures forall e :: e in r ==> e == CloseFd(fd)
  {
    if fd >= 0 then [CloseFd(fd)] else []
  }

  /** The descriptor kept after a logind-handle setting changed: the new one
      when there is a system bus connection, otherwise the old value. */
  function EventsChangedFd(fd: int, systemBus: bool, o: InhibitOutcome): int
  {
    if systemBus then o.fd else fd
  }

  /** The calls made when a logind-handle setting changed: release, then ask again. */
  function EventsChangedEffects(fd: int, systemBus: bool, o: InhibitOutcome): seq<Effect>
  {
    ReleaseEffects(fd) + (if systemBus then o.effects else [])
  }

  /** As written, `inhibit_fd` starts as 0 and is assigned only when there is
      a system bus connection. Without one, quitting closes descriptor 0,
      which the manager never obtained, and a changed logind-handle setting
      closes it and keeps it, so that quitting closes it a second time. */
  lemma StrayCloseAsWritten(o: InhibitOutcome)
    ensures ReleaseEffects(UninitialisedFd) == [CloseFd(0)]
    ensures !Disciplined(ReleaseEffects(UninitialisedFd))
    ensures EventsChangedFd(UninitialisedFd, false, o) == UninitialisedFd
    ensures EventsChangedEffects(UninitialisedFd, false, o) + ReleaseEffects(EventsChangedFd(UninitialisedFd, false, o))
            == [CloseFd(0), CloseFd(0)]
  {
    AppendOne([], CloseFd(0));
  }

  class XfpmManager {
    /** logind runs (otherwise ConsoleKit is the shutdown backend). */
    const logindRunning: bool
    /** The session manager accepted the connection. */
    const sessionManaged: bool
    /** The system bus connection was obtained at start. */
    const systemBus: bool

    var inhibited: bool
    /** When the debounce timer was last reset, in milliseconds. */
    var lastReset: int
    var inhibitFd: int
    /** Every call made on a collaborator, in order. */
    var trace: seq<Effect>

    function Caps(): Backends
    {
      Backends(logindRunning, sessionManaged)
    }

    /** The descriptor is the lock the trace holds, and there is none without a system bus. */
    ghost predicate Valid()
      reads this
    {
      && Disciplined(trace)
      && Held(trace) == (if inhibitFd >= 0 then Some(inhibitFd) else None)
      && (!systemBus ==> inhibitFd < 0)
    }

    /** A new manager: not inhibited, no lock, debounce timer started now. */
    constructor (logindRunning: bool, sessionManaged: bool, systemBus: bool, now: int)
      ensures Valid()
      ensures this.logindRunning == logindRunning && this.sessionManaged == sessionManaged
      ensures this.systemBus == systemBus
      ensures !inhibited && lastReset == now && inhibitFd == NoFd && trace == []
    {
      this.logindRunning := logindRunning;
      this.sessionManaged := sessionManaged;
      this.systemBus := systemBus;
      inhibited := false;
      lastReset := now;
      inhibitFd := NoFd;
      trace := [];
    }

    /** Appends calls that do not touch the inhibitor lock. */
    method Emit(s: seq<Effect>)
      requires Valid() && LockFree(s)
      modifies this
      ensures Valid()
      ensures trace == old(trace) + s
      ensures inhibited == old(inhibited) && lastReset == old(lastReset) && inhibitFd == old(inhibitFd)
    {
      AppendLockFree(trace, s);
      trace := trace + s;
    }

    /** Takes the inhibitor lock when none is held. */
    method Acquire(cfg: Config, login1HasOwner: bool, reply: Option<nat>)
      requires Valid() && inhibitFd < 0 && systemBus
      modifies this
      ensures Valid()
      ensures var o := InhibitSleepSystemd(Join(ClaimedEvents(cfg)), logindRunning, login1HasOwner, reply);
        inhibitFd == o.fd && trace == old(trace) + o.effects
      ensures inhibited == old(inhibited) && lastReset == old(lastReset)
    {
      var what := GetSystemdEvents(cfg);
      var o := InhibitSleepSystemd(what, logindRunning, login1HasOwner, reply);
      ghost var t := trace;
      assert Held(t) == None;
      inhibitFd := o.fd;
      trace := trace + o.effects;
      if o.effects != [] {
        var e := LogindInhibit(what, InhibitWho, InhibitWhy, InhibitMode, o.fd);
        assert trace == t + [e];
        AppendOne(t, e);
      } else {
        assert trace == t;
      }
    }

    /** Start: take the inhibitor lock if there is a system bus, then set both idle alarms. */
    method Start(cfg: Config, login1HasOwner: bool, reply: Option<nat>)
      requires Valid() && inhibitFd < 0
      modifies this
      ensures Valid()
      ensures var o := InhibitSleepSystemd(Join(ClaimedEvents(cfg)), logindRunning, login1HasOwner, reply);
        && inhibitFd == EventsChangedFd(old(inhibitFd), systemBus, o)
        && trace == old(trace) + (if systemBus then o.effects else []) + SetIdleAlarmEffects(cfg)
      ensures inhibited == old(inhibited) && lastReset == old(lastReset)
    {
      if systemBus {
        Acquire(cfg, login1HasOwner, reply);
      }
      SetIdleAlarm(cfg);
    }

    /** Shutdown through the backend, with the session manager as fallback. */
    method Shutdown(shutdownFails: bool)
      requires Valid()
      modifies this
      ensures Valid()
      ensures trace == old(trace) + ShutdownEffects(Caps(), shutdownFails)
      ensures inhibited == old(inhibited) && lastReset == old(lastReset) && inhibitFd == old(inhibitFd)
    {
      if logindRunning {
        Emit([LogindShutdown]);
      } else {
        Emit([ConsoleKitShutdown]);
      }
      if shutdownFails && sessionManaged {
        Emit([SessionShutdown(HintHalt)]);
      }
    }

    /** Asks the user through the session manager, if there is one. */
    method AskShutdown()
      requires Valid()
      modifies this
      ensures Valid()
      ensures trace == old(trace) + AskShutdownEffects(Caps())
      ensures inhibited == old(inhibited) && lastReset == old(lastReset) && inhibitFd == old(inhibitFd)
    {
      if sessionManaged {
        Emit([SessionShutdown(HintAsk)]);
      }
    }

    /** Dispatches a request with a force flag. */
    method SleepRequest(req: ShutdownRequest, force: bool, shutdownFails: bool)
      requires Valid()
      modifies this
      ensures Valid()
      ensures trace == old(trace) + SleepRequestEffects(Caps(), req, force, shutdownFails)
      ensures inhibited == old(inhibited) && lastReset == old(lastReset) && inhibitFd == old(inhibitFd)
    {
      match req
      case DoNothing =>
      case DoSuspend => Emit([PowerSuspend(force)]);
      case DoHibernate => Emit([PowerHibernate(force)]);
      case DoShutdown => Shutdown(shutdownFails);
      case Ask => AskShutdown();
      case Unrecognized(_) =>
    }

    /** Restarts the debounce timer (the waking-up and sleeping signals). */
    method ResetSleepTimer(now: int)
      requires Valid()
      modifies this
      ensures Valid()
      ensures lastReset == now
      ensures trace == old(trace) && inhibited == old(inhibited) && inhibitFd == old(inhibitFd)
    {
      lastReset := now;
    }

    /** A button press at time `now`. */
    method ButtonPressed(cfg: Config, key: ButtonKey, now: int, shutdownFails: bool)
      requires Valid()
      modifies this
      ensures Valid()
      ensures var rx := ButtonPressReaction(cfg, Caps(), key, now - old(lastReset), shutdownFails);
        && trace == old(trace) + rx.effects
        && lastReset == (if rx.resetTimer then now else old(lastReset))
      ensures inhibited == old(inhibited) && inhibitFd == old(inhibitFd)
    {
      if key.MonBrightnessDown? || key.MonBrightnessUp? {
        return;
      }
      if key.KbdBrightnessDown? || key.KbdBrightnessUp? {
        return;
      }
      if key.OtherKey? {
        return;
      }
      var req := ButtonRequest(cfg, key);
      if req == Ask {
        AskShutdown();
      } else if now - lastReset > SleepKeyTimeoutMs {
        lastReset := now;
        SleepRequest(req, false, shutdownFails);
      }
    }

    /** The lid was opened or closed. */
    method LidChanged(cfg: Config, closed: bool, env: Env)
      requires Valid()
      modifies this
      ensures Valid()
      ensures trace == old(trace) + LidChangedEffects(cfg, Caps(), closed, env)
      ensures inhibited == old(inhibited) && lastReset == old(lastReset) && inhibitFd == old(inhibitFd)
    {
      Emit(LidChangedEffects(cfg, Caps(), closed, env));
    }

    /** Some application started or stopped inhibiting the power manager. */
    method InhibitChanged(isInhibited: bool)
      requires Valid()
      modifies this
      ensures Valid()
      ensures inhibited == isInhibited
      ensures trace == old(trace) && lastReset == old(lastReset) && inhibitFd == old(inhibitFd)
    {
      inhibited := isInhibited;
    }

    /** An idle alarm went off. */
    method AlarmTimeout(cfg: Config, id: AlarmId, env: Env)
      requires Valid()
      modifies this
      ensures Valid()
      ensures trace == old(trace) + AlarmTimeoutEffects(cfg, Caps(), id, inhibited, env)
      ensures inhibited == old(inhibited) && lastReset == old(lastReset) && inhibitFd == old(inhibitFd)
    {
      Emit(AlarmTimeoutEffects(cfg, Caps(), id, inhibited, env));
    }

    /** The AC idle threshold was set or changed. */
    method SetIdleAlarmOnAc(cfg: Config)
      requires Valid()
      modifies this
      ensures Valid()
      ensures trace == old(trace) + [IdleAlarmCall(InactivityOnAc, cfg.idleTimeoutOnAc)]
      ensures inhibited == old(inhibited) && lastReset == old(lastReset) && inhibitFd == old(inhibitFd)
    {
      Emit([IdleAlarmCall(InactivityOnAc, cfg.idleTimeoutOnAc)]);
    }

    /** The battery idle threshold was set or changed. */
    method SetIdleAlarmOnBattery(cfg: Config)
      requires Valid()
      modifies this
      ensures Valid()
      ensures trace == old(trace) + [IdleAlarmCall(InactivityOnBattery, cfg.idleTimeoutOnBattery)]
      ensures inhibited == old(inhibited) && lastReset == old(lastReset) && inhibitFd == old(inhibitFd)
    {
      Emit([IdleAlarmCall(InactivityOnBattery, cfg.idleTimeoutOnBattery)]);
    }

    method SetIdleAlarm(cfg: Config)
      requires Valid()
      modifies this
      ensures Valid()
      ensures trace == old(trace) + SetIdleAlarmEffects(cfg)
      ensures inhibited == old(inhibited) && lastReset == old(lastReset) && inhibitFd == old(inhibitFd)
    {
      SetIdleAlarmOnAc(cfg);
      SetIdleAlarmOnBattery(cfg);
    }

    /** The machine switched between AC and battery: all idle alarms restart. */
    method OnBatteryChanged(onBattery: bool)
      requires Valid()
      modifies this
      ensures Valid()
      ensures trace == old(trace) + [AlarmResetAll]
      ensures inhibited == old(inhibited) && lastReset == old(lastReset) && inhibitFd == old(inhibitFd)
    {
      Emit([AlarmResetAll]);
    }

    /** A logind-handle setting changed: release the held lock, then ask for
      a new one when there is a system bus connection. */
    method SystemdEventsChanged(cfg: Config, login1HasOwner: bool, reply: Option<nat>)
      requires Valid()
      modifies this
      ensures Valid()
      ensures var o := InhibitSleepSystemd(Join(ClaimedEvents(cfg)), logindRunning, login1HasOwner, reply);
        && inhibitFd == EventsChangedFd(old(inhibitFd), systemBus, o)
        && trace == old(trace) + EventsChangedEffects(old(inhibitFd), systemBus, o)
      ensures inhibited == old(inhibited) && lastReset == old(lastReset)
    {
      if inhibitFd >= 0 {
        AppendOne(trace, CloseFd(inhibitFd));
        trace := trace + [CloseFd(inhibitFd)];
        inhibitFd := NoFd;
      }
      if systemBus {
        Acquire(cfg, login1HasOwner, reply);
      }
    }

    /** Quitting releases the held lock: no lock is left behind, and no
        descriptor the manager did not obtain is closed. */
    method Quit()
      requires Valid()
      modifies this
      ensures trace == old(trace) + ReleaseEffects(old(inhibitFd))
      ensures Disciplined(trace) && Held(trace) == None
      ensures inhibited == old(inhibited) && lastReset == old(lastReset) && inhibitFd == old(inhibitFd)
    {
      if inhibitFd >= 0 {
        AppendOne(trace, CloseFd(inhibitFd));
        trace := trace + [CloseFd(inhibitFd)];
      }
    }
  }
}
