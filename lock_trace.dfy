/** What a trace of collaborator calls says about the logind inhibitor lock:
    which descriptor it leaves held, and whether it ever closes a descriptor
    it does not hold or takes a second lock while one is held. */
module LockTrace {
  import opened Optional
  import opened Policy

  /** The lock held after one more call. */
  function NextHeld(h: Option<int>, e: Effect): Option<int>
  {
    match e
    case CloseFd(_) => None
    case LogindInhibit(_, _, _, _, fd) => if fd >= 0 then Some(fd) else h
    case _ => h
  }

  /** A call is in order when it closes only the held descriptor and takes a lock only when none is held. */
  predicate StepOk(h: Option<int>, e: Effect)
  {
    match e
    case CloseFd(fd) => h == Some(fd)
    case LogindInhibit(_, _, _, _, fd) => fd >= 0 ==> h == None
    case _ => true
  }

  /** The descriptor held at the end of a trace. */
  function Held(t: seq<Effect>): Option<int>
  {
    if t == [] then None else NextHeld(Held(t[..|t| - 1]), t[|t| - 1])
  }

  /** Every call of the trace is in order: at most one lock at a time, released before it is replaced. */
  predicate Disciplined(t: seq<Effect>)
  {
    t == [] || (Disciplined(t[..|t| - 1]) && StepOk(Held(t[..|t| - 1]), t[|t| - 1]))
  }

  lemma AppendOne(t: seq<Effect>, e: Effect)
    ensures Held(t + [e]) == NextHeld(Held(t), e)
    ensures Disciplined(t + [e]) == (Disciplined(t) && StepOk(Held(t), e))
  {
    assert (t + [e])[..|t|] == t;
  }

  /** Calls that do not touch the lock leave both the held descriptor and the discipline as they were. */
  lemma {:induction false} AppendLockFree(t: seq<Effect>, s: seq<Effect>)
    requires LockFree(s)
    ensures Held(t + s) == Held(t)
    ensures Disciplined(t + s) == Disciplined(t)
  {
    if s != [] {
      var s' := s[..|s| - 1];
      var e := s[|s| - 1];
      assert LockFree(s');
      assert !IsLockEffect(e);
      assert t + s == (t + s') + [e];
      AppendLockFree(t, s');
      AppendOne(t + s', e);
    } else {
      assert t + s == t;
    }
  }
}
