/** The slot the connect threads, the ticker and the main loop share: one lock-protected section per operation. */
module ProcessSlots {
  import opened Wrappers

  type Pid = nat

  /** `handle` is the current process; `retired` holds the ones waiting to be stopped. */
  datatype Slot = Slot(attemptId: nat, handle: Option<Pid>, retired: seq<Pid>)

  function Retire(s: Slot): Slot {
    match s.handle
    case Some(pid) => Slot(s.attemptId, None, s.retired + [pid])
    case None => s
  }

  /** Publishing an attempt and retiring the process of the previous one happen under one lock. */
  function Supersede(s: Slot, attemptId: nat): Slot {
    Retire(s.(attemptId := attemptId))
  }

  function Install(s: Slot, attemptId: nat, pid: Pid): Slot {
    if s.attemptId == attemptId then s.(handle := Some(pid)) else s
  }

  /** Every process the slot knows. */
  function Known(s: Slot): seq<Pid> {
    (if s.handle.Some? then [s.handle.value] else []) + s.retired
  }

  /** Retiring loses no process and invents none. */
  lemma RetireKeepsKnown(s: Slot, attemptId: nat)
    ensures multiset(Known(Retire(s))) == multiset(Known(s))
    ensures multiset(Known(Supersede(s, attemptId))) == multiset(Known(s))
    ensures Retire(s).handle == None && Supersede(s, attemptId).handle == None
    ensures Retire(s).retired == s.retired + match s.handle { case Some(pid) => [pid] case None => [] }
    ensures Retire(s).attemptId == s.attemptId && Supersede(s, attemptId).attemptId == attemptId
  {}

  class ProcessSlot {
    var attemptId: nat
    var handle: Option<Pid>
    var retired: seq<Pid>

    constructor (attemptId: nat)
      ensures View() == Slot(attemptId, None, [])
    {
      this.attemptId, this.handle, this.retired := attemptId, None, [];
    }

    ghost function View(): Slot
      reads this
    {
      Slot(attemptId, handle, retired)
    }

    method RetireHandle() returns (retiredOne: bool)
      modifies this
      ensures View() == Retire(old(View()))
      ensures retiredOne == old(handle).Some?
    {
      if handle.None? { return false; }
      retired := retired + [handle.value];
      handle := None;
      return true;
    }

    method PublishAndRetire(newAttempt: nat) returns (retiredOne: bool)
      modifies this
      ensures View() == Supersede(old(View()), newAttempt)
      ensures retiredOne == old(handle).Some?
    {
      attemptId := newAttempt;
      retiredOne := RetireHandle();
    }

    method TakeRetired() returns (taken: seq<Pid>)
      modifies this
      ensures taken == old(retired) && View() == old(View()).(retired := [])
    {
      taken := retired;
      retired := [];
    }

    method InstallIfCurrent(attempt: nat, pid: Pid) returns (stale: Option<Pid>)
      modifies this
      ensures View() == Install(old(View()), attempt, pid)
      ensures stale == if old(attemptId) == attempt then None else Some(pid)
      ensures stale.Some? ==> View() == old(View())
      ensures stale.None? ==> handle == Some(pid) && retired == old(retired) && attemptId == attempt
    {
      if attemptId == attempt {
        handle := Some(pid);
        stale := None;
      } else {
        stale := Some(pid);
      }
    }

    /** Removes the handle of an exited process; the reported attempt is whichever one is published by then. */
    method PollProcessExit(live: set<Pid>) returns (exited: Option<nat>)
      modifies this
      ensures var gone := old(handle).Some? && old(handle).value !in live;
              && exited == (if gone then Some(old(attemptId)) else None)
              && View() == if gone then old(View()).(handle := None) else old(View())
    {
      if handle.None? || handle.value in live { return None; }
      exited := Some(attemptId);
      handle := None;
    }
  }
}
