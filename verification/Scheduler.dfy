/** The scheduler as the source writes it: an object whose methods update its fields. */
module Scheduler {
  import opened Common
  import S = SchedulerSpec

  class WorkConservingScheduler {
    const capacity: nat
    var active: nat
    var waiters: seq<S.Waiter>
    var lastGrantedKey: Option<S.Key>
    /** Leases handed out whose `released` flag is still false. */
    var held: set<nat>
    /** Abort flags of the signals callers passed in. */
    var aborted: set<nat>
    /** The requests made, and the promises resolved and rejected, in order. */
    var requests: seq<S.Waiter>
    var granted: seq<S.Waiter>
    var rejected: seq<S.Waiter>

    function Abstract(): S.State
      reads this
    {
      S.State(capacity, active, waiters, lastGrantedKey, held, aborted, requests, granted, rejected)
    }

    constructor (capacity: nat)
      requires 0 < capacity
      ensures Abstract() == S.Initial(capacity)
    {
      this.capacity := capacity;
      active, waiters, lastGrantedKey := 0, [], None;
      held, aborted, requests, granted, rejected := {}, {}, [], [], [];
    }

    /** The source's constructor refuses a capacity that is not a positive safe integer. */
    static method Create(capacity: int) returns (scheduler: Option<WorkConservingScheduler>)
      ensures scheduler.Some? <==> 0 < capacity < 0x20_0000_0000_0000
      ensures scheduler.Some? ==> fresh(scheduler.value) && scheduler.value.Abstract() == S.Initial(capacity)
    {
      if capacity <= 0 || 0x20_0000_0000_0000 <= capacity {
        return None;
      }
      var s := new WorkConservingScheduler(capacity);
      scheduler := Some(s);
    }

    method Acquire(key: S.Key, signal: nat)
      modifies this
      ensures Abstract() == S.Acquire(old(Abstract()), key, signal)
    {
      var waiter := S.Waiter(|requests|, key, signal);
      requests := requests + [waiter];
      if signal in aborted {
        rejected := rejected + [waiter];
        return;
      }
      if active < capacity && |waiters| == 0 {
        Resolve(waiter);
        return;
      }
      waiters := waiters + [waiter];
      Drain();
    }

    /** Grant a permit: `active` moves before the promise resolves. */
    method Resolve(waiter: S.Waiter)
      modifies this`active, this`lastGrantedKey, this`held, this`granted
      ensures Abstract() == S.Grant(old(Abstract()), waiter)
    {
      active := active + 1;
      lastGrantedKey := Some(waiter.key);
      held := held + {waiter.id};
      granted := granted + [waiter];
    }

    /** A lease's `release`: a second call does nothing. */
    method Release(id: nat)
      modifies this
      ensures Abstract() == S.Release(old(Abstract()), id)
    {
      if id !in held {
        return;
      }
      held := held - {id};
      active := if active - 1 > 0 then active - 1 else 0;
      Drain();
    }

    method Drain()
      modifies this
      ensures Abstract() == S.Drain(old(Abstract()))
    {
      while active < capacity && |waiters| > 0
        invariant S.Drain(Abstract()) == S.Drain(old(Abstract()))
        decreases |waiters|
      {
        var keys := S.UniqueKeys(waiters);
        var previousKeyIndex := if lastGrantedKey.None? then -1 else S.IndexOf(keys, lastGrantedKey.value);
        var nextKey := keys[(previousKeyIndex + 1) % |keys|];
        var index := S.FirstWith(waiters, nextKey);
        assert index == S.NextIndex(waiters, lastGrantedKey);
        ghost var before := Abstract();
        var waiter := waiters[index];
        waiters := waiters[..index] + waiters[index + 1..];
        if waiter.signal in aborted {
          rejected := rejected + [waiter];
        } else {
          Resolve(waiter);
        }
        assert Abstract() == S.DrainOne(before);
      }
    }

    /** `controller.abort()` sets the flag first; the listeners run after it. */
    method Abort(signal: nat)
      modifies this`aborted
      ensures Abstract() == S.SetAborted(old(Abstract()), signal)
    {
      aborted := aborted + {signal};
    }

    method OnAbort(waiter: S.Waiter)
      modifies this`waiters, this`rejected
      ensures Abstract() == S.OnAbort(old(Abstract()), waiter)
    {
      if waiter in waiters {
        waiters := S.Without(waiters, waiter);
        rejected := rejected + [waiter];
      }
    }
  }
}
