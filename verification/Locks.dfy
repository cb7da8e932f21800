/** Sleeping locks (kernel/sync/rwlock.cpp, kernel/sync/semaphore.cpp).

    A blocked thread stands in the queue until it is notified; then it is awake
    but has not run yet, and will try again when it does. No thread is killed. */
module Locks {

  const WORD: nat := 0x1_0000_0000

  datatype Mode = EXCLUSIVE | SHARED

  datatype Request = Request(thread: nat, mode: Mode)

  // ---------------------------------------------------------------------
  // Reader-writer lock
  // ---------------------------------------------------------------------

  class RwLock {
    var owner: nat                    // 0 if there is none
    var shareCount: nat
    var queue: seq<Request>           // the wait queue, in order of arrival
    ghost var readers: multiset<nat>  // who holds it shared, and how often
    ghost var awake: multiset<Request>

    ghost predicate Valid()
      reads this
    {
      && shareCount == |readers|
      // an owner excludes sharers
      && (owner != 0 ==> shareCount == 0)
      // a queued reader is kept out by an owner
      && (forall i :: 0 <= i < |queue| && queue[i].mode == SHARED ==> owner != 0)
      // nobody waits for a free lock
      && (queue != [] ==> owner != 0 || shareCount > 0)
    }

    predicate Free(mode: Mode)
      reads this
    {
      owner == 0 && (mode == EXCLUSIVE ==> shareCount == 0)
    }

    constructor ()
      ensures Valid() && owner == 0 && shareCount == 0 && queue == [] && awake == multiset{}
    {
      owner, shareCount, queue, readers, awake := 0, 0, [], multiset{}, multiset{};
    }

    method TryLock(t: nat, mode: Mode) returns (ok: bool)
      requires Valid() && t != 0
      modifies this`owner, this`shareCount, this`readers
      ensures Valid() && ok == old(Free(mode))
      ensures ok && mode == EXCLUSIVE ==> owner == t && readers == multiset{}
      ensures ok && mode == SHARED ==> owner == 0 && readers == old(readers) + multiset{t}
      ensures !ok ==> owner == old(owner) && readers == old(readers)
    {
      if mode == EXCLUSIVE {
        if owner == 0 && shareCount == 0 {
          owner := t;
          return true;
        }
        return false;
      } else {
        if owner != 0 {
          return false;
        }
        shareCount := shareCount + 1;
        readers := readers + multiset{t};
        return true;
      }
    }

    /** One round of the loop of lock: take it, or queue up. */
    method Attempt(t: nat, mode: Mode) returns (got: bool)
      requires Valid() && t != 0
      modifies this`owner, this`shareCount, this`readers, this`queue
      ensures Valid() && got == old(Free(mode))
      ensures got && mode == EXCLUSIVE ==> owner == t && readers == multiset{} && queue == old(queue)
      ensures got && mode == SHARED ==> owner == 0 && readers == old(readers) + multiset{t} && queue == old(queue)
      ensures !got ==> queue == old(queue) + [Request(t, mode)] && owner == old(owner) && readers == old(readers)
    {
      if mode == EXCLUSIVE {
        if owner == 0 && shareCount == 0 {
          owner := t;
          return true;
        }
      } else {
        if owner == 0 {
          shareCount := shareCount + 1;
          readers := readers + multiset{t};
          return true;
        }
      }
      queue := queue + [Request(t, mode)];
      return false;
    }

    /** A notified thread runs again and goes through the loop once more. */
    method Retry(r: Request) returns (got: bool)
      requires Valid() && r in awake && r.thread != 0
      modifies this
      ensures Valid() && got == old(Free(r.mode)) && awake == old(awake) - multiset{r}
      ensures got ==>
        if r.mode == EXCLUSIVE then owner == r.thread else owner == 0 && readers == old(readers) + multiset{r.thread}
      ensures got ==> queue == old(queue)
      ensures !got ==> queue == old(queue) + [r] && owner == old(owner) && readers == old(readers)
    {
      awake := awake - multiset{r};
      got := Attempt(r.thread, r.mode);
    }

    /** notify: the whole queue wakes up. */
    method Notify()
      modifies this`queue, this`awake
      ensures queue == [] && awake == old(awake) + multiset(old(queue))
    {
      awake := awake + multiset(queue);
      queue := [];
    }

    /** The owner becomes a sharer. */
    method Downgrade()
      requires Valid() && owner != 0 && shareCount == 0
      modifies this
      ensures Valid() && owner == 0 && readers == multiset{old(owner)}
      ensures queue == [] && awake == old(awake) + multiset(old(queue))
    {
      shareCount := 1;
      readers := multiset{owner};
      owner := 0;
      Notify();
    }

    /** Only the owner may release an exclusive lock.  A shared lock does not know its
        sharers: whoever calls, one share less is held. */
    method Unlock(t: nat)
      requires Valid() && t != 0 && (if owner != 0 then owner == t else shareCount != 0)
      modifies this
      ensures Valid() && owner == 0
      ensures shareCount == if old(owner) != 0 then 0 else old(shareCount) - 1
      ensures t in old(readers) ==> readers == old(readers) - multiset{t}
      ensures if shareCount == 0 then queue == [] && awake == old(awake) + multiset(old(queue))
              else queue == old(queue) && awake == old(awake)
    {
      if owner != 0 {
        owner := 0;
      } else {
        ghost var r: nat :| r in readers && (t in readers ==> r == t);
        shareCount := shareCount - 1;
        readers := readers - multiset{r};
        if shareCount != 0 {
          return;
        }
      }
      Notify();
    }

    /** As long as somebody is queued the lock is held, so a release is still to
        come that wakes him; and if it is held by one writer, nobody else is in. */
    lemma NobodyIsForgotten()
      requires Valid()
      ensures Free(EXCLUSIVE) ==> queue == []
      ensures Free(SHARED) ==> forall i :: 0 <= i < |queue| ==> queue[i].mode == EXCLUSIVE
      ensures owner != 0 ==> readers == multiset{}
    {
    }
  }

  // ---------------------------------------------------------------------
  // Semaphore
  // ---------------------------------------------------------------------

  class Semaphore {
    const total: nat
    var count: nat
    var queue: seq<nat>
    ghost var awake: multiset<nat>  // notified, but not resumed
    ghost var acquired: nat
    ghost var signals: nat
    ghost var lost: nat             // units that signals did not add, or threw away

    ghost predicate Valid()
      reads this
    {
      && count <= total < WORD
      && acquired + count + lost == total + signals
      // if somebody is queued, every unit of the count has an awake thread coming for it
      && (queue != [] ==> |awake| >= count)
    }

    constructor (initial: nat)
      requires 0 < initial < WORD
      ensures Valid() && total == initial && count == initial && queue == [] && awake == multiset{}
      ensures acquired == signals == lost == 0
    {
      total, count, queue, awake := initial, initial, [], multiset{};
      acquired, signals, lost := 0, 0, 0;
    }

    method Check() returns (ok: bool)
      requires Valid()
      modifies this`count, this`acquired
      ensures Valid() && ok == (old(count) > 0)
      ensures count == old(count) - (if ok then 1 else 0)
      ensures acquired == old(acquired) + (if ok then 1 else 0)
    {
      if count > 0 {
        count := count - 1;
        acquired := acquired + 1;
        return true;
      }
      return false;
    }

    /** One round of the loop of wait. */
    method Attempt(t: nat) returns (got: bool)
      requires Valid()
      modifies this`count, this`queue, this`acquired
      ensures Valid() && got == (old(count) > 0)
      ensures got ==> count == old(count) - 1 && queue == old(queue) && acquired == old(acquired) + 1
      ensures !got ==> count == 0 && queue == old(queue) + [t] && acquired == old(acquired)
    {
      if count > 0 {
        count := count - 1;
        acquired := acquired + 1;
        return true;
      }
      queue := queue + [t];
      return false;
    }

    /** A notified thread runs again. Somebody else may have been faster. */
    method Retry(t: nat) returns (got: bool)
      requires Valid() && t in awake
      modifies this`count, this`queue, this`acquired, this`awake
      ensures Valid() && got == (old(count) > 0) && awake == old(awake) - multiset{t}
      ensures got ==> count == old(count) - 1 && queue == old(queue) && acquired == old(acquired) + 1
      ensures !got ==> count == 0 && queue == old(queue) + [t] && acquired == old(acquired)
    {
      if count > 0 {
        count := count - 1;
        acquired := acquired + 1;
        awake := awake - multiset{t};
        return true;
      }
      queue := queue + [t];
      awake := awake - multiset{t};
      return false;
    }

    /** The time of a queued thread is up. */
    method TimeOut(i: nat)
      requires Valid() && i < |queue|
      modifies this`queue
      ensures Valid() && queue == old(queue)[..i] + old(queue)[i + 1..]
    {
      queue := queue[..i] + queue[i + 1..];
    }

    /** Adds a unit, up to the limit, and wakes the thread that waits longest.  The
        sum is taken in 32 bits: at a count of 2^32 - 1 it starts over from 0. */
    method Signal() returns (woken: bool)
      requires Valid()
      modifies this`count, this`queue, this`awake, this`signals, this`lost
      ensures Valid() && signals == old(signals) + 1
      ensures (count == if old(count) < total then old(count) + 1 else total) <==> old(count) + 1 < WORD
      ensures old(count) + 1 == WORD ==> count == 0
      ensures old(count) < total ==> lost == old(lost)
      ensures woken <==> old(queue) != []
      ensures woken ==> queue == old(queue)[1..] && awake == old(awake) + multiset{old(queue)[0]}
      ensures !woken ==> queue == [] && awake == old(awake)
    {
      var sum := (count + 1) % WORD;
      ghost var was := count;
      count := if sum < total then sum else total;
      signals := signals + 1;
      lost := lost + was + 1 - count;
      if queue == [] {
        return false;
      }
      awake := awake + multiset{queue[0]};
      queue := queue[1..];
      return true;
    }

    /** Acquisitions never exceed the initial count and the signals, and if a unit
        is left while threads are queued, a notified thread is on its way to it. */
    lemma NothingFromNothing()
      requires Valid()
      ensures acquired <= total + signals
      ensures count > 0 && queue != [] ==> awake != multiset{}
    {
    }
  }
}
