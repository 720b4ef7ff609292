/**
 * `DoneCounter` of lib/DoneCounter.ts: the join the reaction runner uses
 * for a parallel group. It counts `done` calls and invokes its callback on
 * the call that makes the count equal `finishCount`. The callback itself is
 * modelled by the number of times it has been invoked.
 */
module Completion {
  /**
   * How often the callback has fired after `calls` calls of `done` on a
   * counter with the given `finishCount`: call number k fires it exactly
   * when k equals `finishCount`.
   */
  function Fired(calls: nat, finishCount: int): nat
  {
    if calls == 0 then 0 else Fired(calls - 1, finishCount) + (if calls == finishCount then 1 else 0)
  }

  /** The callback has fired exactly once by call `calls` iff `finishCount` is among 1..calls, and never otherwise. */
  lemma {:induction false} FiredExactly(calls: nat, finishCount: int)
    ensures Fired(calls, finishCount) == if 1 <= finishCount <= calls then 1 else 0
  {
    if calls > 0 {
      FiredExactly(calls - 1, finishCount);
    }
  }

  /** The callback fires at most once, however often `done` is called. */
  lemma FiresAtMostOnce(calls: nat, finishCount: int)
    ensures Fired(calls, finishCount) <= 1
  {
    FiredExactly(calls, finishCount);
  }

  /** With a `finishCount` of zero or less the callback never fires (an empty parallel group never completes). */
  lemma NeverFiresBelowOne(calls: nat, finishCount: int)
    requires finishCount <= 0
    ensures Fired(calls, finishCount) == 0
  {
    FiredExactly(calls, finishCount);
  }

  /** Once fired, further calls do not fire again: the count only moves past `finishCount`. */
  lemma {:induction false} NoFiringAfterFinish(calls: nat, later: nat, finishCount: int)
    requires calls <= later && Fired(calls, finishCount) == 1
    ensures Fired(later, finishCount) == 1
  {
    FiredExactly(calls, finishCount);
    FiredExactly(later, finishCount);
  }

  class DoneCounter {
    /** The number of `done` calls so far. */
    var count: nat
    const finishCount: int
    /** How many times `onDone` has been invoked. */
    var onDoneCalls: nat

    ghost predicate Valid()
      reads this
    {
      onDoneCalls == Fired(count, finishCount)
    }

    /** A fresh counter has counted nothing and fired nothing. */
    constructor(finishCount: int)
      ensures Valid()
      ensures count == 0 && onDoneCalls == 0 && this.finishCount == finishCount
    {
      this.finishCount := finishCount;
      count := 0;
      onDoneCalls := 0;
    }

    /** One more completion; fires the callback when the count reaches `finishCount`. */
    method Done()
      requires Valid()
      modifies this
      ensures Valid()
      ensures count == old(count) + 1
      ensures onDoneCalls == old(onDoneCalls) + (if count == finishCount then 1 else 0)
      ensures onDoneCalls <= 1
    {
      count := count + 1;
      if count == finishCount {
        onDoneCalls := onDoneCalls + 1;
      }
      FiresAtMostOnce(count, finishCount);
    }
  }
}
