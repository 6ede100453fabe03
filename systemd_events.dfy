/** The logind inhibitor bridge: the colon-joined list of the events the
    power manager claims from logind, and the guard in front of logind's
    Inhibit call. The D-Bus message itself is not part of this model; the
    call is an abstract one that gives back a descriptor or nothing. */
module SystemdEvents {
  import opened Optional
  import opened Policy

  const HandlePowerKey := "handle-power-key"
  const HandleSuspendKey := "handle-suspend-key"
  const HandleHibernateKey := "handle-hibernate-key"
  const HandleLidSwitch := "handle-lid-switch"

  /** The fixed arguments of the Inhibit call besides the event list. */
  const InhibitWho := "xfce4-power-manager"
  const InhibitWhy := "xfce4-power-manager handles these events"
  const InhibitMode := "block"

  /** Names that can be joined with ':' and split apart again. */
  predicate WellFormed(xs: seq<string>)
  {
    forall i :: 0 <= i < |xs| ==> xs[i] != "" && ':' !in xs[i]
  }

  /** The place of an event name in the fixed order power key, suspend key,
      hibernate key, lid switch; 4 for any other name. */
  function EventRank(name: string): nat
  {
    if name == HandlePowerKey then 0
    else if name == HandleSuspendKey then 1
    else if name == HandleHibernateKey then 2
    else if name == HandleLidSwitch then 3
    else 4
  }

  /** The events logind is told to leave to the power manager: those whose
      logind-handle setting is false, in the fixed order power key, suspend
      key, hibernate key, lid switch. */
  function ClaimedEvents(cfg: Config): (r: seq<string>)
    ensures WellFormed(r)
    ensures |r| <= 4
    ensures forall i :: 0 <= i < |r| ==> EventRank(r[i]) < 4
    ensures forall i, j :: 0 <= i < j < |r| ==> EventRank(r[i]) < EventRank(r[j])
  {
    (if !cfg.logindHandlePowerKey then [HandlePowerKey] else [])
      + (if !cfg.logindHandleSuspendKey then [HandleSuspendKey] else [])
      + (if !cfg.logindHandleHibernateKey then [HandleHibernateKey] else [])
      + (if !cfg.logindHandleLidSwitch then [HandleLidSwitch] else [])
  }

  /** Each event is claimed exactly when its setting leaves it to the power manager. */
  lemma ClaimedEventsMembership(cfg: Config)
    ensures HandlePowerKey in ClaimedEvents(cfg) <==> !cfg.logindHandlePowerKey
    ensures HandleSuspendKey in ClaimedEvents(cfg) <==> !cfg.logindHandleSuspendKey
    ensures HandleHibernateKey in ClaimedEvents(cfg) <==> !cfg.logindHandleHibernateKey
    ensures HandleLidSwitch in ClaimedEvents(cfg) <==> !cfg.logindHandleLidSwitch
  {
  }

  /** The names separated by ':'; the empty list gives the empty string. */
  function Join(xs: seq<string>): string
  {
    if xs == [] then ""
    else if |xs| == 1 then xs[0]
    else xs[0] + ":" + Join(xs[1..])
  }

  /** The pieces of a string between its ':' characters. */
  function Split(s: string): (r: seq<string>)
    ensures |r| >= 1
  {
    if s == [] then [""]
    else
      var rest := Split(s[1..]);
      if s[0] == ':' then [""] + rest
      else [[s[0]] + rest[0]] + rest[1..]
  }

  /** Joining one more name at the end puts it after a ':'. */
  lemma {:induction false} JoinSnoc(xs: seq<string>, y: string)
    requires xs != []
    ensures Join(xs + [y]) == Join(xs) + ":" + y
  {
    if |xs| == 1 {
      assert xs + [y] == [xs[0], y];
      assert [xs[0], y][1..] == [y];
    } else {
      assert (xs + [y])[1..] == xs[1..] + [y];
      JoinSnoc(xs[1..], y);
    }
  }

  /** Joined names are empty only when there are none. */
  lemma {:induction false} JoinEmpty(xs: seq<string>)
    requires WellFormed(xs)
    ensures Join(xs) == "" <==> xs == []
  {
    if |xs| > 1 {
      assert Join(xs) == xs[0] + ":" + Join(xs[1..]);
      assert |Join(xs)| >= |xs[0]| > 0;
    }
  }

  lemma {:induction false} SplitPlain(a: string)
    requires ':' !in a
    ensures Split(a) == [a]
  {
    if a != [] {
      SplitPlain(a[1..]);
      assert a[0] != ':';
      assert [a[0]] + a[1..] == a;
    }
  }

  lemma {:induction false} SplitAfterPlain(a: string, t: string)
    requires ':' !in a
    ensures Split(a + ":" + t) == [a] + Split(t)
  {
    if a == [] {
      assert a + ":" + t == [':'] + t;
      assert ([':'] + t)[1..] == t;
    } else {
      var s := a + ":" + t;
      assert s[0] == a[0] != ':';
      assert s[1..] == a[1..] + ":" + t;
      SplitAfterPlain(a[1..], t);
      assert [a[0]] + a[1..] == a;
    }
  }

  /** Splitting undoes joining, for a non-empty list of well-formed names. */
  lemma {:induction false} SplitJoin(xs: seq<string>)
    requires WellFormed(xs) && xs != []
    ensures Split(Join(xs)) == xs
  {
    if |xs| == 1 {
      SplitPlain(xs[0]);
    } else {
      assert WellFormed(xs[1..]) by {
        forall i | 0 <= i < |xs[1..]| ensures xs[1..][i] != "" && ':' !in xs[1..][i] {
          assert xs[1..][i] == xs[i + 1];
        }
      }
      SplitAfterPlain(xs[0], Join(xs[1..]));
      SplitJoin(xs[1..]);
      assert [xs[0]] + xs[1..] == xs;
    }
  }

  /** The event list handed to logind: the claimed events in order, joined
      with ':', built as `xfpm_manager_get_systemd_events` builds it (a list,
      then a loop). */
  method GetSystemdEvents(cfg: Config) returns (what: string)
    ensures what == Join(ClaimedEvents(cfg))
    ensures what == "" <==>
      cfg.logindHandlePowerKey && cfg.logindHandleSuspendKey
      && cfg.logindHandleHibernateKey && cfg.logindHandleLidSwitch
    ensures what != "" ==> Split(what) == ClaimedEvents(cfg)
  {
    var events: seq<string> := [];
    if !cfg.logindHandlePowerKey {
      events := events + [HandlePowerKey];
    }
    if !cfg.logindHandleSuspendKey {
      events := events + [HandleSuspendKey];
    }
    if !cfg.logindHandleHibernateKey {
      events := events + [HandleHibernateKey];
    }
    if !cfg.logindHandleLidSwitch {
      events := events + [HandleLidSwitch];
    }
    assert events == ClaimedEvents(cfg);
    what := ConcatEvents(events);
    JoinEmpty(events);
    if what != "" {
      SplitJoin(events);
    }
  }

  /** The while loop of `xfpm_manager_get_systemd_events` that concatenates the list: while the result is
      still empty an event starts it, afterwards it is appended after a ':'. */
  method ConcatEvents(events: seq<string>) returns (what: string)
    requires WellFormed(events)
    ensures what == Join(events)
    ensures what == "" <==> events == []
  {
    what := "";
    var i := 0;
    while i < |events|
      invariant 0 <= i <= |events|
      invariant what == Join(events[..i])
      invariant what == "" <==> i == 0
    {
      if what == "" {
        assert events[..i + 1] == [events[i]];
        what := events[i];
      } else {
        JoinSnoc(events[..i], events[i]);
        assert events[..i + 1] == events[..i] + [events[i]];
        what := what + ":" + events[i];
      }
      i := i + 1;
    }
    assert events[..i] == events;
  }

  /** What asking logind for the inhibitor lock produces: the descriptor
      (-1 when there is none) and the calls made. */
  datatype InhibitOutcome = InhibitOutcome(fd: int, effects: seq<Effect>)

  /** The guard in front of the Inhibit call: no call, and -1, when no event
      is claimed, when logind is not running or when login1 has no owner on
      the system bus; otherwise the call is made and its reply's descriptor
      kept, -1 when the call or the reply failed. */
  function InhibitSleepSystemd(what: string, logindRunning: bool, login1HasOwner: bool, reply: Option<nat>): (o: InhibitOutcome)
    ensures o.fd >= -1
    ensures o.fd >= 0 ==> what != "" && logindRunning && login1HasOwner && reply == Some(o.fd)
    ensures o.effects != [] <==> what != "" && logindRunning && login1HasOwner
    ensures o.effects != [] ==> o.effects == [LogindInhibit(what, InhibitWho, InhibitWhy, InhibitMode, o.fd)]
    ensures what != "" && logindRunning && login1HasOwner ==>
      (reply.Some? ==> o.fd == reply.value) && (reply.None? ==> o.fd == -1)
  {
    if what == "" then InhibitOutcome(-1, [])
    else if !logindRunning then InhibitOutcome(-1, [])
    else if !login1HasOwner then InhibitOutcome(-1, [])
    else
      var fd := if reply.Some? then reply.value else -1;
      InhibitOutcome(fd, [LogindInhibit(what, InhibitWho, InhibitWhy, InhibitMode, fd)])
  }
}
