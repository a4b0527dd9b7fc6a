/**
 src/lib/import/mutex.ts:15-40: one caller holds the lock, the others wait in line. A waiter is the ticket
 number of its call to `acquire`.
 */
module Mutex {
  import opened Common

  class ImportMutex {
    var locked: bool
    var waiters: seq<nat>
    /** Tickets in the order of their calls, in the order of their grants, and those given back. */
    ghost var arrived: seq<nat>
    ghost var granted: seq<nat>
    ghost var released: seq<nat>

    /**
     Grants follow arrivals, the rest wait in the same order, nobody waits while the lock is free, and the lock
     is taken exactly while one granted ticket, the last, has not been given back.
     */
    ghost predicate Valid()
      reads this
    {
      && arrived == granted + waiters
      && (waiters != [] ==> locked)
      && (if locked then |granted| > 0 && released == granted[..|granted| - 1] else released == granted)
    }

    /** The callers that may touch the guarded data. */
    ghost function Holders(): (h: seq<nat>)
      requires Valid()
      reads this
      ensures |h| == if locked then 1 else 0
    {
      granted[|released|..]
    }

    constructor ()
      ensures Valid() && !locked && arrived == [] && Holders() == []
    {
      locked, waiters, arrived, granted, released := false, [], [], [], [];
    }

    method Acquire(ticket: nat) returns (now: bool)
      requires Valid()
      modifies this
      ensures Valid() && locked && arrived == old(arrived) + [ticket] && released == old(released)
      ensures now == !old(locked) && Holders() == if now then [ticket] else old(Holders())
    {
      arrived := arrived + [ticket];
      if !locked {
        locked := true;
        granted := granted + [ticket];
        return true;
      }
      waiters := waiters + [ticket];
      return false;
    }

    /** By the holder: the first in line is next, and the lock is free only if there is none. On a free lock: nothing. */
    method Release()
      requires Valid()
      modifies this
      ensures Valid() && arrived == old(arrived) && released == old(released) + old(Holders())
      ensures Holders() == if old(waiters) == [] then [] else [old(waiters)[0]]
      ensures locked <==> old(waiters) != []
    {
      released := granted;
      if waiters != [] {
        granted := granted + [waiters[0]];
        waiters := waiters[1..];
        return;
      }
      locked := false;
    }

    /** After any calls, the k-th grant goes to the k-th caller, and as many are granted as the releases allow. */
    lemma GrantsAreFirstComeFirstServed()
      requires Valid()
      ensures |granted| == Min(|arrived|, |released| + 1)
      ensures forall k | 0 <= k < |granted| :: granted[k] == arrived[k]
      ensures !locked <==> |released| == |arrived|
    {
    }
  }
}
