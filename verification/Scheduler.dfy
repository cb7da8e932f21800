/** The life of threads on one core (kernel/process/thread.cpp, waitable.cpp,
    core_state.cpp): running, ready, waiting, sleeping, stopped, collected.

    Every kernel operation is one step; interrupts are off during it. */
module Scheduler {
  import opened ThreadQueues

  const PRIORITIES: nat := 16

  datatype State = READY | RUNNING | WAITING | STOPPED
  datatype Reason = NONE | PASSED | NOTIFY | TIMEOUT | ABANDON

  datatype Thread = Thread(state: State, critical: bool, killed: bool, priority: nat, waitFor: nat, ticket: nat,
      reason: Reason)

  type Threads = map<nat, Thread>

  /** All that the invariant speaks of. gone: threads the collector is done with;
      log: threads handed to the collector so far. */
  datatype Snap = Snap(threads: Threads, place: Places, core: Core, timers: map<nat, nat>, last: nat, log: seq<nat>)

  datatype Core = Core(current: nat, gcPtr: nat, gone: set<nat>)

  // ---------------------------------------------------------------------
  // Every thread is where its state says
  // ---------------------------------------------------------------------

  ghost predicate InReady(p: Place) {
    p.InQueue? && p.q.Ready?
  }

  ghost function PriorityOf(p: Place): nat {
    if InReady(p) then p.q.priority else 0
  }

  ghost predicate RightPlace(c: Core, t: nat, th: Thread, p: Place) {
    match th.state
    case READY => InReady(p) && t != c.current && t != c.gcPtr && t !in c.gone
    case RUNNING => p == Nowhere && t == c.current && t != c.gcPtr && t !in c.gone
    case WAITING =>
      && t != c.current && t != c.gcPtr && t !in c.gone
      && (if th.waitFor != 0 then p == InQueue(Wait(th.waitFor)) else p == Nowhere && th.ticket != 0)
    case STOPPED =>
      // in exactly one of: a ready queue, the core, the pointer of the core, the collector's queue, the past
      || (InReady(p) && t != c.current && t != c.gcPtr && t !in c.gone)
      || (p == Nowhere && t == c.current && t != c.gcPtr && t !in c.gone)
      || (p == Nowhere && t != c.current && t == c.gcPtr && t !in c.gone)
      || (p == InQueue(Gc) && t != c.current && t != c.gcPtr && t !in c.gone)
      || (p == Nowhere && t != c.current && t != c.gcPtr && t in c.gone)
  }

  /** A thread the running operation has taken out of its place. */
  ghost predicate InHand(c: Core, t: nat, p: Place) {
    p == Nowhere && t != c.current && t != c.gcPtr && t !in c.gone
  }

  /** Only a waiting thread has an object or a ticket; a thread in its critical
      section is not stopped. */
  ghost predicate FieldsOk(th: Thread) {
    && th.priority < PRIORITIES
    && (th.state != WAITING ==> th.waitFor == 0 && th.ticket == 0)
    && (th.state == STOPPED ==> !th.critical)
  }

  ghost predicate Numbered(s: Snap) {
    && s.threads.Keys == s.place.Keys
    && (s.core.current != 0 ==> s.core.current in s.threads)
    && (s.core.gcPtr != 0 ==> s.core.gcPtr in s.threads && s.core.gcPtr != s.core.current)
    && s.core.gone <= s.threads.Keys
    && forall t :: t in s.threads ==> t != 0 && FieldsOk(s.threads[t])
  }

  ghost predicate AllPlaced(s: Snap, held: set<nat>)
    requires s.threads.Keys == s.place.Keys
  {
    && held <= s.threads.Keys
    && forall t :: t in s.threads ==>
      if t in held then InHand(s.core, t, s.place[t]) else RightPlace(s.core, t, s.threads[t], s.place[t])
  }

  /** A pending timer belongs to the thread that holds its ticket. */
  ghost predicate TicketsOk(threads: Threads, timers: map<nat, nat>, last: nat) {
    && (forall k :: k in timers ==> 0 < k <= last && timers[k] in threads && threads[timers[k]].ticket == k)
    && (forall t :: t in threads && threads[t].ticket != 0 ==>
      threads[t].ticket in timers && timers[threads[t].ticket] == t)
  }

  /** A thread is handed to the collector once at most. */
  ghost predicate LogOk(place: Places, gone: set<nat>, log: seq<nat>) {
    && NoRepeats(log)
    && forall t :: t in log <==> (t in place && place[t] == InQueue(Gc)) || t in gone
  }

  ghost predicate Inv(s: Snap, held: set<nat>) {
    Numbered(s) && AllPlaced(s, held) && TicketsOk(s.threads, s.timers, s.last) && LogOk(s.place, s.core.gone, s.log)
  }

  // ---------------------------------------------------------------------
  // Steps
  // ---------------------------------------------------------------------

  ghost function With(s: Snap, t: nat, th: Thread, p: Place): Snap {
    s.(threads := s.threads[t := th], place := s.place[t := p])
  }

  /** Thread t changes state and place, and is taken in hand or let go. */
  lemma Change(s: Snap, held: set<nat>, t: nat, th: Thread, p: Place, now: set<nat>)
    requires Inv(s, held) && t in s.threads && now - {t} == held - {t} && FieldsOk(th)
    requires th.ticket == s.threads[t].ticket && (p == InQueue(Gc) <==> s.place[t] == InQueue(Gc))
    requires if t in now then InHand(s.core, t, p) else RightPlace(s.core, t, th, p)
    ensures Inv(With(s, t, th, p), now)
  {
    hide RightPlace, InHand, FieldsOk, LogOk, TicketsOk;
    TicketsSame(s, t, th);
    LogSame(s, t, p);
    var u := With(s, t, th, p);
    forall x | x in u.threads && x != t
      ensures if x in now then InHand(u.core, x, u.place[x]) else RightPlace(u.core, x, u.threads[x], u.place[x])
    {
      assert x in now <==> x in held by {
        assert x in now - {t} <==> x in held - {t};
      }
    }
    assert now <= u.threads.Keys by {
      assert forall x :: x in now ==> x == t || x in held - {t} by {
        assert forall x :: x in now ==> x == t || x in now - {t};
      }
    }
  }

  lemma TicketsSame(s: Snap, t: nat, th: Thread)
    requires TicketsOk(s.threads, s.timers, s.last) && t in s.threads && th.ticket == s.threads[t].ticket
    ensures TicketsOk(s.threads[t := th], s.timers, s.last)
  {
  }

  lemma LogSame(s: Snap, t: nat, p: Place)
    requires LogOk(s.place, s.core.gone, s.log) && t in s.place && (p == InQueue(Gc) <==> s.place[t] == InQueue(Gc))
    ensures LogOk(s.place[t := p], s.core.gone, s.log)
  {
  }

  ghost function Woken(s: Snap, t: nat, reason: Reason): Snap
    requires t in s.threads
  {
    s.(threads := s.threads[t := s.threads[t].(state := READY, waitFor := 0, ticket := 0, reason := reason)],
       timers := s.timers - {s.threads[t].ticket})
  }

  /** A thread in hand wakes up: its timer is dropped too. */
  lemma WakeKeeps(s: Snap, held: set<nat>, t: nat, reason: Reason)
    requires Inv(s, held) && t in held
    ensures t in s.threads && Inv(Woken(s, t, reason), held)
  {
    var u := Woken(s, t, reason);
    forall x | x in u.threads && u.threads[x].ticket != 0
      ensures u.threads[x].ticket in u.timers && u.timers[u.threads[x].ticket] == x
    {
      assert x != t;
    }
  }

  ghost function Ticketed(s: Snap, t: nat, th: Thread, k: nat): Snap {
    s.(threads := s.threads[t := th.(ticket := k)], timers := s.timers[k := t], last := k)
  }

  /** A thread in hand goes to wait with a fresh ticket. */
  lemma TicketKeeps(s: Snap, held: set<nat>, t: nat, th: Thread)
    requires Inv(s, held) && t in held && s.threads[t].ticket == 0 && FieldsOk(th.(ticket := s.last + 1))
    ensures Inv(Ticketed(s, t, th, s.last + 1), held)
  {
    hide RightPlace, InHand, FieldsOk, LogOk;
    TicketsMore(s, t, th);
  }

  lemma TicketsMore(s: Snap, t: nat, th: Thread)
    requires TicketsOk(s.threads, s.timers, s.last) && t in s.threads && s.threads[t].ticket == 0
    ensures TicketsOk(s.threads[t := th.(ticket := s.last + 1)], s.timers[s.last + 1 := t], s.last + 1)
  {
  }

  /** A stopped thread in hand goes to the collector. */
  lemma CollectKeeps(s: Snap, held: set<nat>, t: nat)
    requires Inv(s, held) && t in held && s.threads[t].state == STOPPED
    ensures t in s.place && t !in s.log
    ensures Inv(s.(place := s.place[t := InQueue(Gc)], log := s.log + [t]), held - {t})
  {
    var u := s.(place := s.place[t := InQueue(Gc)], log := s.log + [t]);
    forall x ensures x in u.log <==> (x in u.place && u.place[x] == InQueue(Gc)) || x in u.core.gone {
      assert x in u.log <==> x in s.log || x == t;
    }
  }

  ghost function OnCore(s: Snap, current: nat): Snap {
    s.(core := s.core.(current := current))
  }

  ghost function Waste(s: Snap, gcPtr: nat): Snap {
    s.(core := s.core.(gcPtr := gcPtr))
  }

  /** A running thread in hand takes the core. */
  lemma EnterKeeps(s: Snap, held: set<nat>, t: nat)
    requires Inv(s, held) && s.core.current == 0 && t in held && s.threads[t].state == RUNNING
    ensures Inv(OnCore(s, t), held - {t})
  {
  }

  /** The stopped thread left behind is picked up, or a new one is left behind. */
  lemma PickUpKeeps(s: Snap, held: set<nat>)
    requires Inv(s, held) && s.core.gcPtr != 0
    ensures s.core.gcPtr in s.threads && s.threads[s.core.gcPtr].state == STOPPED && s.core.gcPtr !in held
    ensures Inv(Waste(s, 0), held + {s.core.gcPtr})
  {
  }

  lemma LeaveBehindKeeps(s: Snap, held: set<nat>, t: nat)
    requires Inv(s, held) && s.core.gcPtr == 0 && t in held && s.threads[t].state == STOPPED && t != s.core.current
    ensures Inv(Waste(s, t), held - {t})
  {
  }

  /** The collector is done with a thread of its queue. */
  lemma BuryKeeps(s: Snap, held: set<nat>, t: nat)
    requires Inv(s, held) && t in s.place && s.place[t] == InQueue(Gc)
    ensures t !in held && t in s.threads && s.threads[t].state == STOPPED && t !in s.core.gone
    ensures Inv(s.(place := s.place[t := Nowhere], core := s.core.(gone := s.core.gone + {t})), held)
  {
  }

  /** What happens to threads that an operation is not about: nothing, or, when
      they are stopped, a move to the collector. */
  ghost predicate Kept(s: Snap, u: Snap, actors: set<nat>) {
    forall t :: t in s.threads && t !in actors ==>
      && t in u.threads && u.threads[t] == s.threads[t] && t in s.place && t in u.place
      && (u.place[t] == s.place[t] || (s.threads[t].state == STOPPED && u.place[t] == InQueue(Gc)))
  }

  /** Some thread apart from skip can run. The idle thread sees to it. */
  ghost predicate CanRun(threads: Threads, skip: nat) {
    exists t :: t in threads && t != skip && threads[t].state == READY
  }

  /** Threads that do not wait are as before, or, when stopped, with the collector. */
  ghost predicate Settled(s: Snap, u: Snap) {
    forall t :: t in s.threads && s.threads[t].state != WAITING ==>
      && t in u.threads && u.threads[t] == s.threads[t] && t in s.place && t in u.place
      && (u.place[t] == s.place[t] || (s.threads[t].state == STOPPED && u.place[t] == InQueue(Gc)))
  }

  /** What changing the state of a thread comes to; Corrupted is a bugcheck. */
  datatype Outcome = Refused | Done | Corrupted

  /** There is a queue for every priority, for the collector, its event, and for
      whoever waits for the end of a thread. */
  ghost predicate QueuesFor(queues: set<QueueId>, threads: set<nat>, gcEvent: nat) {
    && (forall p: nat :: Ready(p) in queues <==> p < PRIORITIES)
    && Gc in queues && Wait(gcEvent) in queues && gcEvent != 0
    && forall t :: t in threads ==> Wait(t) in queues
  }

  lemma HasQueue(queues: set<QueueId>, threads: set<nat>, gcEvent: nat, t: nat)
    requires QueuesFor(queues, threads, gcEvent)
    ensures t in threads ==> Wait(t) in queues
    ensures t < PRIORITIES <==> Ready(t) in queues
  {
  }

  ghost function AfterReady(th: Thread, reason: Reason): Thread {
    if th.state == WAITING then th.(state := READY, waitFor := 0, ticket := 0, reason := reason)
      else th.(state := READY)
  }

  // ---------------------------------------------------------------------
  // The kernel
  // ---------------------------------------------------------------------

  class Kernel {
    var next: Links
    var queues: Queues
    var threads: Threads
    var current: nat          // the thread on the core
    var gcPtr: nat            // a stopped thread that was just switched away from
    var timers: map<nat, nat> // ticket to thread
    var lastTicket: nat
    const gcThread: nat       // the collector's thread
    const gcEvent: nat        // and the event it waits on
    ghost var lists: Lists
    ghost var place: Places
    ghost var gone: set<nat>
    ghost var log: seq<nat>

    /** At boot the initial thread runs and nothing else is there. */
    constructor (first: nat, gcThread: nat, gcEvent: nat, all: set<QueueId>)
      requires first != 0 && gcEvent != 0 && Gc in all && Wait(gcEvent) in all && Wait(first) in all
      requires forall p: nat :: Ready(p) in all <==> p < PRIORITIES
      ensures Valid() && current == first && queues.Keys == all && timers == map[] && gone == {} && gcPtr == 0
      ensures this.gcThread == gcThread && this.gcEvent == gcEvent && place == map[first := Nowhere]
      ensures lists == map q | q in all :: []
      ensures threads == map[first := Thread(RUNNING, false, false, 3, 0, 0, NONE)]
    {
      this.gcThread, this.gcEvent := gcThread, gcEvent;
      next, timers, lastTicket := map[], map[], 0;
      queues := map q | q in all :: Queue(0, 0);
      threads := map[first := Thread(RUNNING, false, false, 3, 0, 0, NONE)];
      current, gcPtr := first, 0;
      lists := map q | q in all :: [];
      place := map[first := Nowhere];
      gone, log := {}, [];
      new;
      EmptyChain(next);
      assert forall q, t :: !Listed(lists, q, t);
    }

    /** The state; out says that the thread on the core is leaving it. */
    ghost function View(out: bool): Snap
      reads this
    {
      Snap(threads, place, Core(if out then 0 else current, gcPtr, gone), timers, lastTicket, log)
    }

    /** The queues are linked as the places say, and there is one for every need. */
    ghost predicate Layout()
      reads this`next, this`queues, this`lists, this`place
    {
      && LayoutOk(next, queues, lists, place)
      && QueuesFor(queues.Keys, place.Keys, gcEvent)
      && OnlyCollector(lists, gcEvent, gcThread)
    }

    /** What holds between two steps of an operation that has the threads of held in hand. */
    ghost predicate Working(held: set<nat>, out: bool)
      reads this
    {
      Layout() && Inv(View(out), held)
    }

    /** What holds between operations. */
    ghost predicate Valid()
      reads this
    {
      Working({}, false) && current != 0
    }

    // -- queues ----------------------------------------------------------

    method QueuePut(q: QueueId, t: nat)
      requires Layout() && q in queues && t in place && place[t] == Nowhere && (q == Wait(gcEvent) ==> t == gcThread)
      modifies this`next, this`queues, this`lists, this`place
      ensures Layout() && place == old(place)[t := InQueue(q)] && next == PutLinks(old(next), old(queues)[q], t)
      ensures queues.Keys == old(queues).Keys
      ensures q in old(lists) && lists == old(lists)[q := old(lists)[q] + [t]]
    {
      hide *;
      LayoutFacts();
      PutLayout(next, queues, lists, place, q, t);
      StoredIn(next, queues, lists, place, q);
      PutLinksIs(next, queues[q], t);
      CollectorPut(lists, gcEvent, gcThread, q, t);
      var old_ := queues[q];
      next := next[t := 0];
      if old_.tail != 0 {
        next := next[old_.tail := t];
        queues := queues[q := Queue(old_.head, t)];
      } else {
        queues := queues[q := Queue(t, t)];
      }
      place := place[t := InQueue(q)];
      lists := lists[q := lists[q] + [t]];
      BecomesLayout();
    }

    method QueueGet(q: QueueId) returns (t: nat)
      requires Layout() && q in queues
      modifies this`next, this`queues, this`lists, this`place
      ensures Layout() && q in old(lists) && (t == 0 <==> old(lists)[q] == [])
      ensures t == 0 ==> lists == old(lists) && place == old(place) && next == old(next) && queues == old(queues)
      ensures t != 0 ==> t == old(lists)[q][0] && lists == old(lists)[q := old(lists)[q][1..]]
      ensures t != 0 ==> t in old(place) && old(place)[t] == InQueue(q) && place == old(place)[t := Nowhere]
      ensures t != 0 ==> next == old(next)[t := 0]
      ensures queues.Keys == old(queues).Keys
    {
      hide *;
      LayoutFacts();
      StoredIn(next, queues, lists, place, q);
      var old_ := queues[q];
      if old_.head == 0 {
        return 0;
      }
      GetLayout(next, queues, lists, place, q);
      CollectorLess(lists, gcEvent, gcThread, q, lists[q][1..]);
      HeadPlace(lists, place, q);
      t := old_.head;
      var after := next[t];
      queues := queues[q := Queue(after, if after == 0 then 0 else old_.tail)];
      next := next[t := 0];
      lists := lists[q := lists[q][1..]];
      place := place[t := Nowhere];
      BecomesLayout();
    }

    /** Takes thread t out of the wait queue of an object, which is searched from
        its head. If t is not found the wait queue is corrupted. */
    method Cancel(o: nat, t: nat) returns (found: bool)
      requires Layout() && Wait(o) in queues && t != 0
      modifies this`next, this`queues, this`lists, this`place
      ensures Layout()
      ensures found <==> Listed(old(lists), Wait(o), t)
      ensures !found ==> lists == old(lists) && place == old(place) && next == old(next) && queues == old(queues)
      ensures found ==> t in old(place) && place == old(place)[t := Nowhere]
      ensures queues.Keys == old(queues).Keys
      ensures found ==> Removed(old(lists), lists, Wait(o), t)
    {
      hide *;
      LayoutFacts();
      var q := Wait(o);
      StoredIn(next, queues, lists, place, q);
      ghost var s := lists[q];
      ListedIs(lists, q, t);
      var prev := queues[q].head;
      if prev == t {
        RemovedAt(lists, q, 0);
        var h := QueueGet(q);
        return true;
      }
      ghost var k: nat := 0;
      while prev != 0
        invariant next == old(next) && queues == old(queues) && lists == old(lists) && place == old(place)
        invariant k <= |s| && prev == At(s, k) && forall i :: 0 <= i <= k && i < |s| ==> s[i] != t
        decreases |s| - k
      {
        InList(next, queues, lists, place, q, k);
        var after := next[prev];
        if after == t {
          break;
        }
        k := k + 1;
        prev := after;
      }
      InList(next, queues, lists, place, q, k);
      if prev != 0 {
        UnlinkLayout(next, queues, lists, place, q, k + 1);
        MemberPlace(lists, place, q, t);
        CollectorLess(lists, gcEvent, gcThread, q, s[..k + 1] + s[k + 2..]);
        var after := next[t];
        next := next[prev := after];
        if after == 0 {
          queues := queues[q := Queue(queues[q].head, prev)];
        }
        UnlinkedQueue(queues, q);
        RemovedAt(lists, q, k + 1);
        lists := lists[q := s[..k + 1] + s[k + 2..]];
        place := place[t := Nowhere];
        BecomesLayout();
        return true;
      }
      return false;
    }

    /** Takes all waiting threads off the queue; they stay linked to each other. */
    method Detach(o: nat) returns (head: nat)
      requires Layout() && Wait(o) in queues
      modifies this`queues, this`lists, this`place
      ensures Layout() && Wait(o) in old(lists) && Chain(next, old(lists)[Wait(o)])
      ensures head == At(old(lists)[Wait(o)], 0) && lists == old(lists)[Wait(o) := []]
      ensures place == Without(old(place), old(lists)[Wait(o)]) && queues.Keys == old(queues).Keys
    {
      hide *;
      LayoutFacts();
      CollectorLess(lists, gcEvent, gcThread, Wait(o), []);
      ClearLayout(next, queues, lists, place, Wait(o));
      head := queues[Wait(o)].head;
      queues := queues[Wait(o) := Queue(0, 0)];
      place := Without(place, lists[Wait(o)]);
      lists := lists[Wait(o) := []];
      BecomesLayout();
    }

    // -- one thread ------------------------------------------------------

    /** Links a thread in hand into the ready queue of its priority. */
    method ReadyPut(t: nat, ghost held: set<nat>, ghost out: bool)
      requires Working(held, out) && t in held && (threads[t].state == READY || threads[t].state == STOPPED)
      modifies this`next, this`queues, this`lists, this`place
      ensures Working(held - {t}, out) && t in old(place) && threads[t].priority < PRIORITIES
      ensures place == old(place)[t := InQueue(Ready(threads[t].priority))] && queues.Keys == old(queues).Keys
      ensures Ready(threads[t].priority) in old(queues) && Ready(threads[t].priority) in old(lists)
      ensures lists == old(lists)[Ready(threads[t].priority) := old(lists)[Ready(threads[t].priority)] + [t]]
      ensures next == PutLinks(old(next), old(queues)[Ready(threads[t].priority)], t)
      ensures forall x :: x in old(place) && old(place)[x] == Nowhere ==>
        !Listed(old(lists), Ready(threads[t].priority), x)
      ensures AllStored(old(next), old(queues), old(lists))
    {
      hide *;
      WorkingFacts(held, out);
      HeldFacts(View(out), held, t);
      HasQueue(queues.Keys, place.Keys, gcEvent, threads[t].priority);
      NowhereIsUnlisted(lists, place);
      StoredLayout(next, queues, lists, place);
      var th := threads[t];
      PutReadyKeeps(View(out), held, t);
      QueuePut(Ready(th.priority), t);
      BecomesWorking(held - {t}, out);
    }

    /** The collector's put: a stopped thread goes to its queue. */
    method OnStop(t: nat, ghost held: set<nat>, ghost out: bool)
      requires Working(held, out) && t in held && threads[t].state == STOPPED
      modifies this`next, this`queues, this`lists, this`place, this`log
      ensures Working(held - {t}, out) && t in old(place) && t !in old(log)
      ensures place == old(place)[t := InQueue(Gc)] && log == old(log) + [t] && queues.Keys == old(queues).Keys
      ensures Gc in old(lists) && lists == old(lists)[Gc := old(lists)[Gc] + [t]]
    {
      hide *;
      WorkingFacts(held, out);
      HeldFacts(View(out), held, t);
      CollectKeeps(View(out), held, t);
      QueuePut(Gc, t);
      log := log + [t];
      BecomesWorking(held - {t}, out);
    }

    /** set_state READY. A thread that waits is taken off what it waits for. */
    method SetReady(t: nat, reason: Reason, ghost held: set<nat>, ghost out: bool) returns (r: Outcome)
      requires Working(held, out) && t in threads
      requires threads[t].state == WAITING ==>
        if t in held then (reason == NOTIFY || reason == ABANDON) && Wait(threads[t].waitFor) in queues
          else reason == TIMEOUT
      requires threads[t].state == READY || threads[t].state == RUNNING ==> t in held
      modifies this`next, this`queues, this`lists, this`place, this`threads, this`timers
      ensures r == Refused <==> old(threads)[t].state == STOPPED
      ensures r == Corrupted <==> old(threads)[t].state == WAITING && reason == ABANDON
      ensures r == Refused ==>
        Working(held, out) && threads == old(threads) && place == old(place) && timers == old(timers)
      ensures r == Done ==> Working(held + {t}, out) && t in old(place) && place == old(place)[t := Nowhere]
      ensures r == Done && old(threads)[t].state == WAITING ==> threads == old(threads)[t :=
          old(threads)[t].(state := READY, reason := reason, waitFor := 0, ticket := 0)]
      ensures r == Done && old(threads)[t].state != WAITING ==>
        threads == old(threads)[t := old(threads)[t].(state := READY)]
      ensures r == Done ==>
        timers == if old(threads)[t].state == WAITING then old(timers) - {old(threads)[t].ticket} else old(timers)
      ensures t in held && r != Corrupted ==> next == old(next) && lists == old(lists)
      ensures queues.Keys == old(queues).Keys
    {
      hide *;
      WorkingFacts(held, out);
      if threads[t].state == STOPPED {
        return Refused;
      }
      if threads[t].state == WAITING {
        var ok := EndWait(t, reason, held, out);
        return if ok then Done else Corrupted;
      }
      ReadyKeeps(View(out), held, t, reason);
      ghost var u := MadeReady(View(out), t, reason);
      threads := threads[t := threads[t].(state := READY)];
      BecomesView(held + {t}, out, u);
      return Done;
    }

    /** The end of a wait: on a notification the timer is cancelled, on a timeout the
        thread leaves the wait queue, and an abandoned one is also searched for in
        the wait queue. */
    method EndWait(t: nat, reason: Reason, ghost held: set<nat>, ghost out: bool) returns (ok: bool)
      requires Working(held, out) && t in threads && threads[t].state == WAITING
      requires if t in held then (reason == NOTIFY || reason == ABANDON) && Wait(threads[t].waitFor) in queues
        else reason == TIMEOUT
      modifies this`next, this`queues, this`lists, this`place, this`threads, this`timers
      ensures ok <==> reason != ABANDON
      ensures ok ==> Working(held + {t}, out) && t in old(place) && place == old(place)[t := Nowhere]
      ensures ok ==> threads == old(threads)[t :=
          old(threads)[t].(state := READY, reason := reason, waitFor := 0, ticket := 0)]
      ensures ok ==> timers == old(timers) - {old(threads)[t].ticket}
      ensures t in held && ok ==> next == old(next) && lists == old(lists)
      ensures queues.Keys == old(queues).Keys
    {
      hide *;
      WorkingFacts(held, out);
      var th := threads[t];
      ReadyKeeps(View(out), held, t, reason);
      ghost var u := MadeReady(View(out), t, reason);
      ok := LeaveQueue(t, reason, held, out);
      if ok {
        timers := timers - {th.ticket};
        threads := threads[t := th.(state := READY, reason := reason, waitFor := 0, ticket := 0)];
        BecomesView(held + {t}, out, u);
      }
    }

    /** The queue of a thread whose wait ends: it is taken off, unless a notification
        took it off before. */
    method LeaveQueue(t: nat, reason: Reason, ghost held: set<nat>, ghost out: bool) returns (ok: bool)
      requires Working(held, out) && t in threads && threads[t].state == WAITING
      requires if t in held then (reason == NOTIFY || reason == ABANDON) && Wait(threads[t].waitFor) in queues
        else reason == TIMEOUT
      modifies this`next, this`queues, this`lists, this`place
      ensures ok <==> reason != ABANDON
      ensures ok ==> Layout() && t in old(place) && place == old(place)[t := Nowhere]
      ensures t in held && ok ==> next == old(next) && lists == old(lists)
      ensures queues.Keys == old(queues).Keys
    {
      hide *;
      WorkingFacts(held, out);
      var o := threads[t].waitFor;
      WaitingFacts(View(out), held, t);
      WaitQueueExists(next, queues, lists, place, t, o);
      if reason == ABANDON {
        HeldFacts(View(out), held, t);
        Unlisted(lists, place, Wait(o), t);
        ok := Cancel(o, t);
      } else if reason == TIMEOUT && o != 0 {
        ok := Cancel(o, t);
      } else {
        ok := true;
        if t in held {
          HeldFacts(View(out), held, t);
          StillNowhere(place, t);
        }
      }
    }

    /** set_state RUNNING. */
    method SetRunning(t: nat, ghost held: set<nat>, ghost out: bool) returns (ok: bool)
      requires Working(held, out) && t in held && (threads[t].state == READY || threads[t].state == STOPPED)
      modifies this`threads
      ensures Working(held, out) && ok == (old(threads)[t].state != STOPPED)
      ensures threads == if ok then old(threads)[t := old(threads)[t].(state := RUNNING)] else old(threads)
    {
      hide Layout, Working, Inv, LayoutOk, InPlace, AllStored, OnlyCollector, FieldsOk, Numbered, AllPlaced, TicketsOk,
          LogOk, Chain, Listed;
      WorkingFacts(held, out);
      if threads[t].state == STOPPED {
        return false;
      }
      RunKeeps(View(out), held, t);
      threads := threads[t := threads[t].(state := RUNNING)];
      BecomesWorking(held, out);
      return true;
    }

    /** Takes a timer ticket if there is a time limit, and set_state WAITING. The
        thread is put into the wait queue of the object, if any. */
    method BeginWait(t: nat, us: nat, o: nat, ghost held: set<nat>, ghost out: bool)
      requires Working(held, out) && t in held && threads[t].state == RUNNING && (us != 0 || o != 0)
      requires o != 0 ==> Wait(o) in queues && (o == gcEvent ==> t == gcThread)
      modifies this`next, this`queues, this`lists, this`place, this`threads, this`timers, this`lastTicket
      ensures Working(held - {t}, out) && t in old(place)
      ensures threads ==
        old(threads)[t := old(threads)[t].(state := WAITING, waitFor := o, ticket := if us != 0 then lastTicket else 0)]
      ensures us != 0 ==> lastTicket == old(lastTicket) + 1 && timers == old(timers)[lastTicket := t]
      ensures us == 0 ==> lastTicket == old(lastTicket) && timers == old(timers)
      ensures place == old(place)[t := if o != 0 then InQueue(Wait(o)) else Nowhere] && queues.Keys == old(queues).Keys
      ensures o != 0 ==> Wait(o) in old(lists) && lists == old(lists)[Wait(o) := old(lists)[Wait(o)] + [t]]
      ensures o == 0 ==> lists == old(lists)
    {
      hide *;
      WorkingFacts(held, out);
      HeldFacts(View(out), held, t);
      BeginWaitKeeps(View(out), held, t, us, o);
      ghost var u := Waited(View(out), t, us, o);
      SamePlace(View(out), t);
      SetWaiting(t, us, o);
      if o != 0 {
        QueuePut(Wait(o), t);
      }
      BecomesView(held - {t}, out, u);
    }

    /** The ticket and the state of the thread. */
    method SetWaiting(t: nat, us: nat, o: nat)
      requires t in threads
      modifies this`threads, this`timers, this`lastTicket
      ensures lastTicket == if us != 0 then old(lastTicket) + 1 else old(lastTicket)
      ensures timers == if us != 0 then old(timers)[lastTicket := t] else old(timers)
      ensures threads ==
        old(threads)[t := old(threads)[t].(state := WAITING, waitFor := o, ticket := if us != 0 then lastTicket else 0)]
    {
      var ticket := 0;
      if us != 0 {
        lastTicket := lastTicket + 1;
        ticket := lastTicket;
        timers := timers[ticket := t];
      }
      threads := threads[t := threads[t].(state := WAITING, waitFor := o, ticket := ticket)];
    }

    // -- choosing the next thread ----------------------------------------

    /** The first thread of the best ready queue below level. */
    method ReadyGet(level: nat) returns (t: nat)
      requires Layout()
      modifies this`next, this`queues, this`lists, this`place
      ensures Layout() && queues.Keys == old(queues).Keys
      ensures t == 0 ==> lists == old(lists) && place == old(place) && next == old(next)
      ensures t == 0 ==> NoneReadyBelow(place, if level < PRIORITIES then level else PRIORITIES)
      ensures t != 0 ==> t in old(place) && place == old(place)[t := Nowhere] && InReady(old(place)[t])
      ensures t != 0 ==>
        NoneReadyBelow(old(place), PriorityOf(old(place)[t])) && PriorityOf(old(place)[t]) < level
          && PriorityOf(old(place)[t]) < PRIORITIES
      ensures t != 0 ==> HeadTaken(old(lists), lists, old(place)[t].q, t)
    {
      hide Layout, Working, Inv, LayoutOk, InPlace, AllStored, OnlyCollector, FieldsOk, Numbered, AllPlaced, TicketsOk,
          LogOk, Chain, Listed;
      LayoutFacts();
      var limit := if level < PRIORITIES then level else PRIORITIES;
      var i: nat := 0;
      NoneBelowZero(place);
      while i < limit
        invariant i <= limit && Layout() && queues.Keys == old(queues).Keys
        invariant lists == old(lists) && place == old(place) && next == old(next)
        invariant NoneReadyBelow(place, i)
      {
        LayoutFacts();
        NoneBelowNext(next, queues, lists, place, i);
        t := QueueGet(Ready(i));
        if t != 0 {
          return;
        }
        i := i + 1;
      }
      return 0;
    }

    /** Looks at one ready thread: skip is set aside, a stopped one goes to the
        collector, any other starts to run. */
    method Consider(level: nat, skip: nat, ghost held: set<nat>) returns (t: nat, ok: bool)
      requires Working(held, false)
      modifies this`next, this`queues, this`lists, this`place, this`threads, this`log
      ensures queues.Keys == old(queues).Keys
      ensures t == 0 ==> !ok && Working(held, false) && View(false) == old(View(false))
      ensures t == 0 ==> NoneReadyBelow(place, if level < PRIORITIES then level else PRIORITIES)
      ensures t != 0 ==> t in old(place) && t in old(threads) && t !in held && InReady(old(place)[t])
      ensures t != 0 ==>
        NoneReadyBelow(old(place), PriorityOf(old(place)[t])) && ReadyCount(place) < ReadyCount(old(place))
      ensures t != 0 ==> PriorityOf(old(place)[t]) < level && PriorityOf(old(place)[t]) < PRIORITIES
      ensures t != 0 ==> old(threads)[t].state == READY || old(threads)[t].state == STOPPED
      ensures t != 0 && t == skip ==>
        !ok && Working(held + {t}, false) && threads == old(threads) && place == old(place)[t := Nowhere]
      ensures ok ==>
        t != skip && old(threads)[t].state == READY && Working(held + {t}, false) && place == old(place)[t := Nowhere]
      ensures ok ==> threads == old(threads)[t := old(threads)[t].(state := RUNNING)]
      ensures t != 0 && t != skip && !ok ==> threads == old(threads) && threads[t].state == STOPPED
      ensures t != 0 && t != skip && !ok ==> Working(held, false) && place == old(place)[t := Nowhere][t := InQueue(Gc)]
      ensures t == 0 ==> lists == old(lists)
      ensures t != 0 && (t == skip || ok) ==> HeadTaken(old(lists), lists, old(place)[t].q, t)
      ensures t != 0 && t != skip && !ok ==> HeadCollected(old(lists), lists, old(place)[t].q, t)
    {
      hide *;
      WorkingFacts(held, false);
      ghost var s := View(false);
      t := ReadyGet(level);
      ok := false;
      if t == 0 {
        ViewIs(false);
        BecomesWorking(held, false);
        return;
      }
      TakenReady(s, held, t);
      CountLess(s.place, t);
      BecomesWorking(held + {t}, false);
      if t == skip {
        return;
      }
      ok := SetRunning(t, held + {t}, false);
      if !ok {
        HeadIsCollected(old(lists), lists, s.place[t], t);
        OnStop(t, held + {t}, false);
        InAndOut(held, t);
        CountLessStill(s.place, place, t);
      }
    }

    /** The loop that looks for the next thread to run. */
    method Pick(level: nat, skip: nat, ghost held: set<nat>) returns (target: nat, putBack: nat, needGc: bool)
      requires Working(held, false) && (skip == 0 || skip !in held)
      modifies this`next, this`queues, this`lists, this`place, this`threads, this`log
      ensures Working(held + NonNull(target) + NonNull(putBack), false) && queues.Keys == old(queues).Keys
      ensures threads.Keys == old(threads).Keys == place.Keys == old(place).Keys
      ensures target != 0 ==>
        target in old(threads) && old(threads)[target].state == READY && InReady(old(place)[target])
      ensures target != 0 ==>
        target != skip && threads == old(threads)[target := old(threads)[target].(state := RUNNING)]
      ensures target != 0 ==> NoneAlive(old(threads), old(place), PriorityOf(old(place)[target]), skip)
      ensures target != 0 ==> PriorityOf(old(place)[target]) < level && PriorityOf(old(place)[target]) < PRIORITIES
      ensures target == 0 ==> threads == old(threads) && OrderKept(old(threads), skip, old(lists), lists)
      ensures target == 0 ==>
        NoneAlive(old(threads), old(place), if level < PRIORITIES then level else PRIORITIES, skip)
      ensures putBack != 0 ==> putBack == skip && putBack in threads && putBack != target && putBack !in held
      ensures target != 0 ==> target !in held
      ensures putBack != 0 ==> threads[putBack].state == READY || threads[putBack].state == STOPPED
      ensures Kept(old(View(false)), View(false), {target, skip})
      ensures target != 0 ==> Foremost(old(threads), old(place), old(lists), target, skip)
      ensures target != 0 ==> (needGc <==> StoppedAhead(old(threads), old(place), old(lists), target, skip))
      ensures target != 0 ==> Gathered(old(threads), old(place), old(lists), place, target, skip, 0)
      ensures Asleep(place, gcThread, gcEvent) <==> Asleep(old(place), gcThread, gcEvent)
      ensures !needGc ==> Signalled(old(place), place, gcThread, gcEvent)
    {
      hide *;
      WorkingFacts(held, false);
      putBack, needGc, target := 0, false, 0;
      ghost var s0 := View(false);
      ghost var l0 := lists;
      NobodyIsNull(s0, held);
      SoughtStarts(next, queues, s0, l0, skip);
      NullIs(held);
      while true
        invariant Working(held + NonNull(putBack), false) && queues.Keys == old(queues).Keys
        invariant Sought(s0, l0, View(false), lists, skip, putBack, needGc)
        decreases ReadyCount(place)
      {
        ghost var now := held + NonNull(putBack);
        ghost var u := View(false);
        ghost var l := lists;
        WorkingFacts(now, false);
        ViewIs(false);
        SoughtFacts(s0, l0, u, l, skip, putBack, needGc, gcThread, gcEvent);
        var t: nat, ok: bool;
        t, ok := Consider(level, skip, now);
        ViewIs(false);
        if t == 0 {
          NonNullSwap(held, 0, putBack);
          return;
        }
        NonNullIs(now, t);
        if t == skip {
          WorkingFacts(now + {t}, false);
          SoughtAside(s0, l0, u, l, View(false), lists, skip, putBack, held, needGc);
          putBack := t;
          continue;
        }
        if ok {
          SoughtOne(s0, l0, u, l, View(false), lists, skip, putBack, held, t, needGc, gcThread, gcEvent);
          target := t;
          return;
        }
        WorkingFacts(now, false);
        SoughtStopped(s0, l0, u, l, View(false), lists, skip, putBack, t, needGc);
        needGc := true;
      }
    }

    // -- waking ----------------------------------------------------------

    /** Makes a thread in hand ready and queues it. The refusal of a stopped thread,
        which would go to the collector, cannot happen: kill takes a thread off
        the queue it waits in. */
    method WakeOne(t: nat, reason: Reason, ghost held: set<nat>, ghost out: bool,
        ghost rest: seq<nat>) returns (ok: bool)
      requires Working(held, out) && t in held && threads[t].state == WAITING && Wait(threads[t].waitFor) in queues
      requires reason == NOTIFY || reason == ABANDON
      requires t !in rest && Chain(next, rest) && forall x :: x in rest ==> x in held
      modifies this`next, this`queues, this`lists, this`place, this`threads, this`timers
      ensures ok <==> reason != ABANDON
      ensures ok ==> Working(held - {t}, out) && t in old(place) && Chain(next, rest)
      ensures ok ==> QueuedUp(old(lists), lists, old(threads), [t])
      ensures ok ==> threads == old(threads)[t := AfterReady(old(threads)[t], reason)]
      ensures ok ==> place == old(place)[t := InQueue(Ready(old(threads)[t].priority))]
      ensures ok ==> timers == old(timers) - {old(threads)[t].ticket}
      ensures queues.Keys == old(queues).Keys
    {
      hide *;
      WorkingFacts(held, out);
      StillHeld(held, t);
      HeldFacts(View(out), held, t);
      AfterReadyIs(threads[t], reason);
      var r := SetReady(t, reason, held, out);
      if r == Corrupted {
        return false;
      }
      ghost var n, q, l := next, queues, lists;
      WorkingFacts(held, out);
      HeldAll(View(out), held);
      ReadyPut(t, held, out);
      LinksElsewhere(n, q, l, threads[t].priority, t, rest);
      QueuedOne(l, old(threads), t);
      return true;
    }

    /** imp_notify: wakes the threads of a detached chain, first to last. A chain
        of abandoned threads is looked for in the wait queue it was taken from. */
    method WakeChain(head: nat, reason: Reason, ghost o: nat, ghost pending: seq<nat>, ghost held: set<nat>,
        ghost out: bool)
      returns (count: nat, crashed: bool)
      requires Working(held, out) && Wait(o) in queues && Chain(next, pending) && head == At(pending, 0)
      requires reason == NOTIFY || reason == ABANDON
      requires AllWaiting(threads, pending, o, held)
      modifies this`next, this`queues, this`lists, this`place, this`threads, this`timers
      ensures crashed <==> reason == ABANDON && pending != []
      ensures !crashed ==> Working(Less(held, pending), out) && count == |pending|
      ensures !crashed ==> QueuedUp(old(lists), lists, old(threads), pending)
      ensures !crashed ==> WokeUp(old(View(out)), View(out), pending, reason)
      ensures queues.Keys == old(queues).Keys
    {
      hide *;
      count, crashed := 0, false;
      var th := head;
      ghost var s := View(out);
      ghost var k: nat := 0;
      WorkingFacts(held, out);
      WakingStarts(next, s, pending, reason, held);
      QueuedNone(lists, threads, pending);
      while th != 0
        invariant k <= |pending| && th == At(pending, k) && Chain(next, pending[k..]) && count == k
        invariant Working(Less(held, pending[..k]), out) && queues.Keys == old(queues).Keys
        invariant WokeUp(s, View(out), pending[..k], reason) && (k > 0 ==> reason == NOTIFY)
        invariant QueuedUp(old(lists), lists, old(threads), pending[..k])
        invariant AllWaiting(threads, pending[k..], o, Less(held, pending[..k])) && NoRepeats(pending)
        decreases |pending| - k
      {
        ghost var now := Less(held, pending[..k]);
        ghost var u, l := View(out), lists;
        WorkingFacts(now, out);
        WakingHere(next, u.threads, pending, k, o, now);
        var after := next[th];
        var ok := WakeOne(th, reason, now, out, pending[k + 1..]);
        if !ok {
          return count, true;
        }
        ViewIs(out);
        WakingStep(old(lists), l, lists, s, u, View(out), pending, k, o, held, reason);
        count := count + 1;
        k := k + 1;
        th := after;
      }
      WakingEnds(next, pending, k, reason);
    }

    /** notify: wakes every thread that waits for the object. */
    method NotifyAll(o: nat, reason: Reason, ghost held: set<nat>, ghost out: bool) returns (count: nat, crashed: bool)
      requires Working(held, out) && Wait(o) in queues && (reason == NOTIFY || reason == ABANDON)
      modifies this`next, this`queues, this`lists, this`place, this`threads, this`timers
      ensures Wait(o) in old(lists) && queues.Keys == old(queues).Keys
      ensures crashed <==> reason == ABANDON && old(lists)[Wait(o)] != []
      ensures !crashed ==> Working(held, out) && count == |old(lists)[Wait(o)]|
      ensures !crashed ==> WokeUp(old(View(out)), View(out), old(lists)[Wait(o)], reason)
      ensures !crashed ==> QueuedUp(old(lists)[Wait(o) := []], lists, old(threads), old(lists)[Wait(o)])
    {
      hide *;
      WorkingFacts(held, out);
      ghost var s := View(out);
      ghost var pending := lists[Wait(o)];
      ListedHere(lists, place, Wait(o));
      DetachKeeps(s, held, pending, o);
      var head := Detach(o);
      ghost var now := held + (set t | t in pending);
      BecomesWorking(now, out);
      ViewIs(out);
      count, crashed := WakeChain(head, reason, o, pending, now, out);
      if !crashed {
        WokeFromQueue(s, pending, o, View(out), reason, held);
      }
    }

    /** signal_one: wakes the thread that waits longest, if any.  It takes the lock of
        the object, and that of the thread.  If one of them is the lock that the
        caller holds, `locked`, it spins until the bugcheck. */
    method NotifyOne(o: nat, locked: nat, ghost held: set<nat>, ghost out: bool) returns (woken: bool, crashed: bool)
      requires Working(held, out) && Wait(o) in queues && o != 0
      modifies this`next, this`queues, this`lists, this`place, this`threads, this`timers
      ensures Wait(o) in old(lists)
      ensures crashed <==> locked != 0 && (o == locked || At(old(lists)[Wait(o)], 0) == locked)
      ensures !crashed ==> Working(held, out) && queues.Keys == old(queues).Keys && Extended(old(lists), lists)
      ensures !crashed ==> (woken <==> old(lists)[Wait(o)] != [])
      ensures !crashed ==>
        WokeUp(old(View(out)), View(out), if woken then [old(lists)[Wait(o)][0]] else [], NOTIFY)
    {
      hide *;
      WorkingFacts(held, out);
      ghost var s := View(out);
      ListedHere(lists, place, Wait(o));
      HeadIs(lists[Wait(o)]);
      if o == locked {
        return false, true;
      }
      NobodyWoke(s, NOTIFY);
      ExtendedSelf(lists);
      ghost var l := lists;
      var t := QueueGet(Wait(o));
      if t == 0 {
        ViewIs(out);
        BecomesWorking(held, out);
        return false, false;
      }
      if t == locked {
        return false, true;
      }
      OneOff(s, held, t, o);
      ghost var now := held + {t};
      BecomesWorking(now, out);
      SingleChain(next, t);
      ViewIs(out);
      ghost var l1 := lists;
      ExtendedWait(l, o, l[Wait(o)][1..]);
      var count: nat;
      count, crashed := WakeChain(t, NOTIFY, o, [t], now, out);
      ExtendedQueued(l1, lists, s.threads, [t]);
      ExtendedMore(l, l1, lists);
      WokeOneFromQueue(s, t, o, View(out), held);
      return true, false;
    }

    /** The collector's signal: wakes its thread, unless it is about to run. */
    method GcSignal(target: nat, locked: nat, ghost held: set<nat>, ghost out: bool)
      returns (ghost woken: seq<nat>, crashed: bool)
      requires Working(held, out)
      modifies this`next, this`queues, this`lists, this`place, this`threads, this`timers
      ensures crashed <==> target != gcThread && LocksOut(old(place), locked, gcThread, gcEvent)
      ensures !crashed ==> Working(held, out) && queues.Keys == old(queues).Keys
      ensures !crashed ==> WokeUp(old(View(out)), View(out), woken, NOTIFY)
      ensures woken == if target != gcThread && Asleep(old(place), gcThread, gcEvent) then [gcThread] else []
      ensures forall t :: t in woken ==> t in old(threads) && old(threads)[t].state == WAITING && t !in held
      ensures !crashed && target != gcThread ==> !Asleep(place, gcThread, gcEvent)
      ensures target == gcThread ==> place == old(place)
      ensures !crashed ==> Received(old(place), place, 0) && Extended(old(lists), lists)
      ensures !crashed ==> Roused(old(View(out)), View(out), gcThread, gcEvent)
      ensures !crashed ==> Signalled(old(place), place, gcThread, gcEvent)
    {
      hide *;
      WorkingFacts(held, out);
      ghost var s, lists0 := View(out), lists;
      NobodyWoke(s, NOTIFY);
      NothingNew(place, gcThread, gcEvent);
      ReceivedNone(place);
      ExtendedSelf(lists);
      RousedNot(s, gcThread, gcEvent);
      ViewIs(out);
      woken, crashed := [], false;
      if target != gcThread {
        ListedHere(lists, place, Wait(gcEvent));
        SleeperIsHead(lists, place, gcThread, gcEvent);
        OneOffAll(s, held, gcEvent);
        woken := if lists[Wait(gcEvent)] != [] then [gcThread] else [];
        LocksOutIs(place, locked, gcThread, gcEvent);
        var one: bool;
        one, crashed := NotifyOne(gcEvent, locked, held, out);
        if crashed {
          return;
        }
        ViewIs(out);
        SignalWakes(lists0, s, View(out), woken, gcThread, gcEvent);
        NothingReceived(s, View(out), held, woken, NOTIFY);
        SignalledWoke(s, View(out), woken, NOTIFY, gcThread, gcEvent);
        RousedIs(s, View(out), woken, held, gcThread, gcEvent);
      }
    }

    // -- the core --------------------------------------------------------

    /** irq_switch_to: the thread left behind last time goes to the collector; if
        the one leaving now is stopped, it is left behind in its turn. */
    method SwitchTo(target: nat, ghost held: set<nat>)
      requires Working(held, true) && current in threads && target != current && current != 0
      requires target in held && threads[target].state == RUNNING
      requires held == if threads[current].state == STOPPED then {target, current} else {target}
      modifies this`next, this`queues, this`lists, this`place, this`threads, this`timers, this`log, this`gcPtr,
          this`current
      ensures Valid() && current == target && threads[target] == old(threads)[target]
        && threads.Keys == old(threads).Keys
      ensures gcPtr == if old(threads)[old(current)].state == STOPPED then old(current) else 0
      ensures Kept(old(View(true)), View(false), {SleeperOf(old(place), gcThread, gcEvent)})
        && queues.Keys == old(queues).Keys
      ensures Settled(old(View(true)), View(false)) && forall j :: j in timers ==> j in old(timers)
      ensures Signalled(old(place), place, gcThread, gcEvent) && Received(old(place), place, old(gcPtr))
      ensures if old(gcPtr) == 0 then place == old(place) else !Asleep(place, gcThread, gcEvent)
      ensures CollectorKept(old(View(true)), View(false), old(gcPtr), gcThread, gcEvent)
    {
      hide *;
      WorkingFacts(held, true);
      ghost var s := View(true);
      var old_ := gcPtr;
      LeaveBehind(target, held);
      SignalLeft(target, old_, s);
      WorkingFacts({target}, true);
      HeldFacts(View(true), {target}, target);
      EnterKeeps(View(true), {target}, target);
      OnCoreIs(View(true), target);
      current := target;
      ViewIs(false);
      NothingLeft({target}, target);
      BecomesWorking({}, false);
      BecomesValid();
    }

    /** If a thread was handed to the collector, the collector is signalled. */
    method SignalLeft(target: nat, left: nat, ghost s: Snap)
      requires Working({target}, true) && target in threads && threads[target].state == RUNNING
        && threads.Keys == place.Keys == s.threads.Keys
      requires Kept(s, View(true), {}) && left == s.core.gcPtr && (left == 0 ==> place == s.place)
      requires Received(s.place, place, left)
      modifies this`next, this`queues, this`lists, this`place, this`threads, this`timers
      ensures Working({target}, true) && queues.Keys == old(queues).Keys && threads.Keys == old(threads).Keys
      ensures target in threads && threads[target] == old(threads)[target]
      ensures forall j :: j in timers ==> j in old(timers)
      ensures Kept(s, OnCore(View(true), target), {SleeperOf(s.place, gcThread, gcEvent)})
      ensures Settled(s, OnCore(View(true), target))
      ensures Signalled(s.place, place, gcThread, gcEvent) && Received(s.place, place, left)
      ensures if left == 0 then place == s.place else !Asleep(place, gcThread, gcEvent)
      ensures CollectorKept(s, OnCore(View(true), target), left, gcThread, gcEvent)
    {
      hide *;
      WorkingFacts({target}, true);
      HeldFacts(View(true), {target}, target);
      ghost var u := View(true);
      ghost var woken: seq<nat> := [];
      NobodyWoke(u, NOTIFY);
      NothingNew(place, gcThread, gcEvent);
      if left != 0 {
        var crashed: bool;
        SelfLocksIs(threads, place, lists, 0, 0, gcThread, gcEvent);
        woken, crashed := GcSignal(target, 0, {target}, true);
        WorkingFacts({target}, true);
        HeldFacts(View(true), {target}, target);
        if target == gcThread {
          AwakeInHand(place, gcThread, gcEvent);
        }
        SignalledAwake(s.place, place, gcThread, gcEvent);
        ReceivedOnward(s.place, u.place, place, left, 0);
      }
      ViewIs(true);
      SleeperBefore(s, u, woken, gcThread, gcEvent);
      HandedOver(s, u, View(true), woken, target, SleeperOf(s.place, gcThread, gcEvent));
      CollectorKeptIs(s, u, View(true), woken, target, left, gcThread, gcEvent);
    }

    /** The first half of irq_switch_to, about the thread that is left behind. */
    method LeaveBehind(target: nat, ghost held: set<nat>)
      requires Working(held, true) && current in threads && target != current && current != 0
      requires target in held && threads[target].state == RUNNING
      requires held == if threads[current].state == STOPPED then {target, current} else {target}
      modifies this`next, this`queues, this`lists, this`place, this`log, this`gcPtr
      ensures Working({target}, true) && queues.Keys == old(queues).Keys
      ensures gcPtr == if old(threads)[old(current)].state == STOPPED then old(current) else 0
      ensures Kept(old(View(true)), View(true), {}) && threads.Keys == place.Keys
      ensures Received(old(place), place, old(gcPtr))
      ensures old(gcPtr) == 0 ==> place == old(place)
    {
      hide *;
      WorkingFacts(held, true);
      ghost var s := View(true);
      KeptSelf(s, {});
      ReceivedNone(place);
      var old_ := gcPtr;
      ReceivedOne(place, old_);
      if old_ != 0 {
        PickUpKeeps(s, held);
        gcPtr := 0;
        ViewIs(true);
        WasteIs(s, 0);
        BecomesWorking(held + {old_}, true);
        OnStop(old_, held + {old_}, true);
        InAndOut(held, old_);
        ViewIs(true);
        KeptPickedUp(s, held, old_, View(true), {});
        WorkingFacts(held, true);
      }
      if threads[current].state == STOPPED {
        ghost var u := View(true);
        LeaveBehindKeeps(u, held, current);
        WasteIs(u, current);
        gcPtr := current;
        JustTarget(held, target, current);
        ViewIs(true);
        KeptCore(s, u, View(true), {});
        BecomesWorking({target}, true);
      }
    }

    // -- operations ------------------------------------------------------

    /** Picks the next thread and signals the collector if stopped threads were met.
        The caller holds the lock of object skip, if any. */
    method PickNext(level: nat, skip: nat) returns (target: nat, putBack: nat, crashed: bool)
      requires Valid()
      modifies this`next, this`queues, this`lists, this`place, this`threads, this`timers, this`log
      ensures skip == 0 ==> !crashed
      ensures target != 0 ==>
        (crashed <==> SelfLocks(old(threads), old(place), old(lists), target, skip, gcThread, gcEvent))
      ensures target != 0 ==>
        target in old(threads) && old(threads)[target].state == READY && InReady(old(place)[target])
      ensures target != 0 ==> target != skip && Foremost(old(threads), old(place), old(lists), target, skip)
      ensures target != 0 ==> NoneAlive(old(threads), old(place), PriorityOf(old(place)[target]), skip)
      ensures target != 0 ==> PriorityOf(old(place)[target]) < level && PriorityOf(old(place)[target]) < PRIORITIES
      ensures target == 0 ==>
        NoneAlive(old(threads), old(place), if level < PRIORITIES then level else PRIORITIES, skip)
      ensures !crashed ==> Working(NonNull(target) + NonNull(putBack), false) && queues.Keys == old(queues).Keys
      ensures !crashed ==> threads.Keys == old(threads).Keys == place.Keys == old(place).Keys
      ensures !crashed && target != 0 ==>
        target in threads && threads[target] == old(threads)[target].(state := RUNNING)
      ensures !crashed && putBack != 0 ==> putBack == skip && putBack in threads && putBack != target
      ensures !crashed && putBack != 0 ==> threads[putBack].state == READY || threads[putBack].state == STOPPED
      ensures !crashed ==> OthersRun(old(threads), threads, target)
      ensures !crashed && target == 0 ==>
        OrderKept(old(threads), skip, old(lists), lists) && Roused(old(View(false)), View(false), gcThread, gcEvent)
      ensures !crashed ==> Kept(old(View(false)), View(false), {target, skip, SleeperOf(old(place), gcThread, gcEvent)})
      ensures !crashed && target != 0 ==>
        Gathered(old(threads), old(place), old(lists), place, target, skip, 0)
      ensures !crashed ==> Signalled(old(place), place, gcThread, gcEvent)
    {
      hide *;
      ValidFacts();
      ghost var s := View(false);
      ghost var lists0 := lists;
      var needGc: bool;
      target, putBack, needGc := Pick(level, skip, {});
      ghost var held := NonNull(target) + NonNull(putBack);
      EmptyPlus(target, putBack);
      ViewIs(false);
      ghost var actors := {target, skip, SleeperOf(s.place, gcThread, gcEvent)};
      SleeperIs(s.place, gcThread, gcEvent);
      KeptUp(s, View(false), {target, skip}, actors);
      InHands(target, putBack);
      SelfLocksIs(s.threads, s.place, lists0, target, skip, gcThread, gcEvent);
      LocksOutIs(s.place, skip, gcThread, gcEvent);
      LocksOutIs(place, skip, gcThread, gcEvent);
      ghost var m, p, l, v := threads, place, lists, View(false);
      crashed := SignalMet(target, skip, needGc, held, s, actors);
      if !crashed {
        if target != 0 {
          GatheredMore(s.threads, s.place, lists0, p, target, skip, place, 0);
        }
        OthersRunIs(s.threads, m, threads, target);
        if target == 0 {
          OrderExtended(s.threads, skip, lists0, l, lists);
          RousedFrom(s, v, View(false), gcThread, gcEvent);
        }
      }
    }

    /** If stopped threads were met, the collector is signalled. */
    method SignalMet(target: nat, locked: nat, needGc: bool, ghost held: set<nat>, ghost s: Snap,
        ghost actors: set<nat>)
      returns (crashed: bool)
      requires Working(held, false) && (target != 0 ==> target in held) && threads.Keys == place.Keys
      requires Kept(s, View(false), actors) && (Asleep(place, gcThread, gcEvent) ==> gcThread in actors)
        && (!needGc ==> Signalled(s.place, place, gcThread, gcEvent))
      modifies this`next, this`queues, this`lists, this`place, this`threads, this`timers
      ensures crashed <==> needGc && target != gcThread && LocksOut(old(place), locked, gcThread, gcEvent)
      ensures !crashed ==> Working(held, false) && queues.Keys == old(queues).Keys
      ensures !crashed ==> threads.Keys == place.Keys == old(threads).Keys && Kept(s, View(false), actors)
      ensures !crashed ==> Signalled(s.place, place, gcThread, gcEvent) && Received(old(place), place, 0)
      ensures !crashed ==> OthersRun(old(threads), threads, 0) && Extended(old(lists), lists)
      ensures !crashed ==> Roused(old(View(false)), View(false), gcThread, gcEvent)
    {
      hide *;
      WorkingFacts(held, false);
      ghost var u := View(false);
      crashed := false;
      OthersRunSelf(threads);
      ReceivedNone(place);
      ExtendedSelf(lists);
      RousedNot(u, gcThread, gcEvent);
      if needGc {
        ghost var woken: seq<nat>;
        woken, crashed := GcSignal(target, locked, held, false);
        if crashed {
          return;
        }
        ViewIs(false);
        WorkingFacts(held, false);
        if target == gcThread && target != 0 {
          HeldFacts(View(false), held, target);
          AwakeInHand(place, gcThread, gcEvent);
        }
        NullIsAwake(View(false), held, gcThread, gcEvent);
        SignalledAwake(s.place, place, gcThread, gcEvent);
        WokeOthers(u, View(false), woken, gcThread);
        WokeActors(s, u, View(false), woken, gcThread, actors);
        OthersRunWoke(u, View(false));
      }
    }

    /** The running thread waits for object o, or for nothing but the timer if o is 0.
        The lock of the object is held until the switch: if a stopped thread is met
        and that lock is needed to signal the collector, the kernel spins on it. The
        collector waits for its event without a time limit. */
    method Suspend(o: nat, us: nat) returns (ghost chosen: nat, crashed: bool)
      requires Valid() && threads[current].state == RUNNING && CanRun(threads, o) && (us != 0 || o != 0)
      requires o != 0 ==> o != current && Wait(o) in queues && (o == gcEvent ==> current == gcThread && us == 0)
      modifies this`next, this`queues, this`lists, this`place, this`threads, this`timers, this`lastTicket, this`log,
          this`gcPtr, this`current
      ensures chosen in old(threads) && old(threads)[chosen].state == READY && chosen != o
      ensures Foremost(old(threads), old(place), old(lists), chosen, o)
      ensures crashed <==> SelfLocks(old(threads), old(place), old(lists), chosen, o, gcThread, gcEvent)
      ensures !crashed ==> Valid() && threads.Keys == old(threads).Keys && queues.Keys == old(queues).Keys
      ensures !crashed ==> current == chosen && Suspended(old(View(false)), View(false), o, us, gcThread, gcEvent)
      ensures !crashed ==> Gathered(old(threads), old(place), old(lists), place, chosen, o, old(gcPtr))
      ensures !crashed && !(old(current) == gcThread && o == gcEvent) ==>
        Signalled(old(place), place, gcThread, gcEvent)
      // when the collector itself goes to sleep
      ensures !crashed && old(current) == gcThread && o == gcEvent ==>
        (Attended(place, gcThread, gcEvent) <==> old(gcPtr) != 0 || !GcPending(old(place)))
    {
      hide *;
      ValidFacts();
      WorkingFacts({}, false);
      ghost var s := View(false);
      ghost var lists0 := lists;
      Promising(o);
      var target: nat, putBack: nat;
      target, putBack, crashed := PickNext(PRIORITIES, o);
      chosen := target;
      if crashed {
        return;
      }
      ghost var held := NonNull(target) + NonNull(putBack);
      InHands(target, putBack);
      ghost var m := View(false);
      ViewIs(false);
      OthersRunFacts(s.threads, threads, target);
      SuspendTo(us, o, target, putBack);
      ViewIs(false);
      SuspendedIs(s, m, View(false), o, us, gcThread, gcEvent);
      SelfLocksIs(s.threads, s.place, lists0, target, o, gcThread, gcEvent);
      LocksOutIs(s.place, o, gcThread, gcEvent);
      WaitSignal(s.place, m.place, place, s.core.current, o, s.core.gcPtr, gcThread, gcEvent);
      GatheredMore(s.threads, s.place, lists0, m.place, target, o, place, s.core.gcPtr);
      if s.core.current == gcThread && o == gcEvent {
        GatheredNone(s.threads, s.place, lists0, m.place, target, o);
      }
    }

    /** The second half of a wait: the running thread leaves the core to target. */
    method SuspendTo(us: nat, o: nat, target: nat, putBack: nat)
      requires Working(NonNull(target) + NonNull(putBack), false) && current in threads && current != 0
      requires threads[current].state == RUNNING && (us != 0 || o != 0) && (putBack != 0 ==> putBack == o)
      requires o != 0 ==> o != current && Wait(o) in queues && (o == gcEvent ==> current == gcThread)
      requires target != 0 && target in threads && threads[target].state == RUNNING && target != current
        && target != putBack && target != o
      requires putBack != 0 ==>
        putBack in threads && (threads[putBack].state == READY || threads[putBack].state == STOPPED)
      modifies this`next, this`queues, this`lists, this`place, this`threads, this`timers, this`lastTicket, this`log,
          this`gcPtr, this`current
      ensures Valid() && threads.Keys == old(threads).Keys && queues.Keys == old(queues).Keys
      ensures current == target && SuspendedTo(old(View(false)), View(false), o, us, gcThread, gcEvent)
      ensures AfterWait(old(place), place, old(current), o, old(gcPtr), gcThread, gcEvent)
    {
      hide *;
      ghost var s, held := View(false), NonNull(target) + NonNull(putBack);
      WorkingFacts(held, false);
      InHands(target, putBack);
      var cur := current;
      Depart(held);
      ghost var v := View(true);
      ViewIs(true);
      StartWaiting(cur, us, o, target, putBack);
      ghost var x := View(true);
      ViewIs(true);
      WaitingIs(s.threads[cur], o, us, lastTicket);
      SwitchTo(target, {target});
      ViewIs(false);
      SuspendedToIs(s, v, x, View(false), target, o, us, gcThread, gcEvent);
      AfterWaitIs(s.place, x.place, place, cur, o, s.core.gcPtr, gcThread, gcEvent);
    }

    /** The part of a wait between leaving the core and giving it to another thread. */
    method StartWaiting(t: nat, us: nat, o: nat, ghost target: nat, putBack: nat)
      requires Working(NonNull(target) + NonNull(putBack) + {t}, true) && t in threads && target != 0 && t != target
        && t != putBack && target != putBack
      requires threads[t].state == RUNNING && (us != 0 || o != 0) && (putBack != 0 ==> putBack == o)
      requires o != 0 ==> Wait(o) in queues && (o == gcEvent ==> t == gcThread)
      requires putBack != 0 ==>
        putBack in threads && (threads[putBack].state == READY || threads[putBack].state == STOPPED)
      modifies this`next, this`queues, this`lists, this`place, this`threads, this`timers, this`lastTicket
      ensures Working({target}, true) && queues.Keys == old(queues).Keys && threads.Keys == old(threads).Keys
      ensures threads ==
        old(threads)[t := old(threads)[t].(state := WAITING, waitFor := o, ticket := if us != 0 then lastTicket else 0)]
      ensures us != 0 ==> lastTicket != 0
      ensures Kept(old(View(true)), View(true), {t, o})
      ensures WentToWait(old(place), place, t, o, gcThread, gcEvent)
      ensures t in place && place[t] == if o != 0 then InQueue(Wait(o)) else Nowhere
    {
      hide *;
      ghost var held := NonNull(target) + NonNull(putBack);
      ghost var s := View(true);
      WorkingFacts(held + {t}, true);
      InHands(target, putBack);
      ThreeHands(target, putBack, t);
      HeldFacts(View(true), held + {t}, t);
      BeginWait(t, us, o, held + {t}, true);
      InAndOut(held, t);
      WentToWaitIs(old(place), place, t, o, gcThread, gcEvent);
      ghost var p, q := place, Nowhere;
      PutBack(putBack, target);
      if putBack != 0 {
        q := InQueue(Ready(threads[putBack].priority));
        WentToWaitPut(old(place), p, t, o, putBack, q.q, gcThread, gcEvent);
      }
      ViewIs(true);
      KeptTwo(s, View(true), t, o,
          s.threads[t].(state := WAITING, waitFor := o, ticket := if us != 0 then lastTicket else 0), putBack, q);
    }

    /** The thread that was set aside during the search, if any, is queued again. */
    method PutBack(t: nat, ghost target: nat)
      requires Working(NonNull(target) + NonNull(t), true) && target != 0 && t != target
      requires t != 0 ==> t in threads && (threads[t].state == READY || threads[t].state == STOPPED)
      modifies this`next, this`queues, this`lists, this`place
      ensures Working({target}, true) && queues.Keys == old(queues).Keys && (t == 0 ==> place == old(place))
      ensures t != 0 ==>
        t in old(place) && old(place)[t] == Nowhere && place == old(place)[t := InQueue(Ready(threads[t].priority))]
    {
      hide *;
      ghost var held := NonNull(target) + NonNull(t);
      InHands(target, t);
      if t != 0 {
        WorkingFacts(held, true);
        HeldFacts(View(true), held, t);
        ReadyPut(t, held, true);
      }
    }

    /** The thread on the core leaves it to target. If it is alive it stays ready. */
    method GiveWay(target: nat)
      requires Working({target}, false) && current in threads && current != 0 && target != current && target in threads
      requires threads[target].state == RUNNING
        && (threads[current].state == RUNNING || threads[current].state == STOPPED)
      modifies this`next, this`queues, this`lists, this`place, this`threads, this`timers, this`log, this`gcPtr,
          this`current
      ensures Valid() && current == target && threads[target] == old(threads)[target]
      ensures threads.Keys == old(threads).Keys && queues.Keys == old(queues).Keys
      ensures old(threads)[old(current)].state == RUNNING ==>
        Yielded(threads, place, old(current), old(threads)[old(current)])
      ensures old(threads)[old(current)].state == STOPPED ==>
        gcPtr == old(current) && old(current) in threads && threads[old(current)] == old(threads)[old(current)]
      ensures forall j :: j in timers ==> j in old(timers)
      ensures Kept(old(View(false)), View(false), {old(current), SleeperOf(old(place), gcThread, gcEvent)})
      ensures Signalled(old(place), place, gcThread, gcEvent) && Received(old(place), place, old(gcPtr))
    {
      hide *;
      ghost var s := View(false);
      var cur := current;
      WorkingFacts({target}, false);
      Depart({target});
      ghost var held := {target} + {cur};
      WorkingFacts(held, true);
      HeldFacts(View(true), held, cur);
      Yield(cur, held);
      InAndOut({target}, cur);
      ghost var x := View(true);
      ViewIs(true);
      BothHands(target, cur);
      SignalledBack(s.place, x.place, cur, gcThread, gcEvent);
      ReceivedBack(s, x.place, cur);
      SwitchTo(target, if threads[cur].state == STOPPED then {target, cur} else {target});
      ViewIs(false);
      SleeperStays(s.place, x.place, gcThread, gcEvent);
      GaveWay(s, x, View(false), cur, SleeperOf(x.place, gcThread, gcEvent), SleeperOf(s.place, gcThread, gcEvent));
      SignalledOnward(s.place, x.place, place, gcThread, gcEvent);
      ReceivedOnward(s.place, x.place, place, 0, s.core.gcPtr);
    }

    /** A thread that leaves the core goes back to its ready queue, unless it is stopped. */
    method Yield(t: nat, ghost held: set<nat>)
      requires Working(held, true) && t in threads && t in held
        && (threads[t].state == RUNNING || threads[t].state == STOPPED)
      modifies this`next, this`queues, this`lists, this`place, this`threads, this`timers
      ensures queues.Keys == old(queues).Keys && timers == old(timers) && t in old(place)
      ensures old(threads)[t].state == STOPPED ==> Working(held, true) && threads == old(threads) && place == old(place)
      ensures old(threads)[t].state == RUNNING ==>
        Working(held - {t}, true) && threads == old(threads)[t := old(threads)[t].(state := READY)]
      ensures old(threads)[t].state == RUNNING ==> place == old(place)[t := InQueue(Ready(old(threads)[t].priority))]
    {
      hide *;
      WorkingFacts(held, true);
      AfterReadyIs(threads[t], NONE);
      HeldFacts(View(true), held, t);
      SamePlace(View(true), t);
      var r := SetReady(t, NONE, held, true);
      if r != Refused {
        StillHeld(held, t);
        ReadyPut(t, held, true);
      }
    }

    /** The thread on the core gives way to one in a better ready queue, or with
        lower also to one in the queue of its own priority. A stopped one gives
        way to any. */
    method Preempt(lower: bool)
      requires Valid() && (threads[current].state == STOPPED ==> CanRun(threads, 0))
      modifies this`next, this`queues, this`lists, this`place, this`threads, this`timers, this`log, this`gcPtr,
          this`current
      ensures Valid() && threads.Keys == old(threads).Keys && threads[current].state == RUNNING
        && queues.Keys == old(queues).Keys
      ensures Preempted(old(View(false)), View(false), lower, SleeperOf(old(place), gcThread, gcEvent))
      ensures current != old(current) && old(current) in old(threads) && old(threads)[old(current)].state == RUNNING ==>
        Foremost(old(threads), old(place), old(lists), current, 0)
          && Gathered(old(threads), old(place), old(lists), place, current, 0, old(gcPtr))
      ensures old(threads)[old(current)].state == STOPPED ==>
        Escaped(old(threads), old(place), old(lists), current, SleeperOf(old(place), gcThread, gcEvent))
      ensures Signalled(old(place), place, gcThread, gcEvent)
    {
      hide *;
      ValidFacts();
      WorkingFacts({}, false);
      PlacesOf();
      ghost var s, lists0 := View(false), lists;
      var cur := current;
      LevelIs(s, cur);
      var level := threads[cur].priority + if lower then 1 else 0;
      var target: nat, putBack: nat;
      var crashed: bool;
      target, putBack, crashed := PickNext(level, 0);
      OthersRunFacts(s.threads, threads, target);
      OneHand(target, putBack);
      ghost var m := View(false);
      ViewIs(false);
      SleeperStays(s.place, m.place, gcThread, gcEvent);
      ghost var g, h := SleeperOf(s.place, gcThread, gcEvent), SleeperOf(m.place, gcThread, gcEvent);
      if target != 0 {
        GiveWay(target);
        ViewIs(false);
        PreemptedBy(s, m, View(false), target, h, g, lower);
        EscapedAtOnce(s, lists0, target, gcThread, gcEvent);
        GatheredMore(s.threads, s.place, lists0, m.place, target, 0, place, s.core.gcPtr);
        SignalledOnward(s.place, m.place, place, gcThread, gcEvent);
      } else if threads[cur].state == STOPPED {
        StillPromising(s.threads, threads);
        BecomesValid();
        ValidFacts();
        ghost var l := lists;
        KeptUp(s, m, {0, 0, g}, {0, g});
        EscapeTo();
        ViewIs(false);
        TookUpIs(s, m, View(false), current, gcThread, gcEvent);
        EscapedIs(s, lists0, m, l, current, gcThread, gcEvent);
        PreemptedDead(s, m, View(false), h, g, lower);
        SignalledOnward(s.place, m.place, place, gcThread, gcEvent);
      } else {
        BecomesValid();
        PreemptedNot(s, m, g, lower);
      }
    }

    /** A stopped thread leaves the core to any thread that can run. */
    method EscapeTo()
      requires Valid() && threads[current].state == STOPPED && CanRun(threads, 0)
      modifies this`next, this`queues, this`lists, this`place, this`threads, this`timers, this`log, this`gcPtr,
          this`current
      ensures Valid() && threads.Keys == old(threads).Keys && threads[current].state == RUNNING
        && queues.Keys == old(queues).Keys
      ensures current in threads && current != old(current) && gcPtr == old(current)
      ensures current in old(threads) && old(threads)[current].state == READY
      ensures threads[current] == old(threads)[current].(state := RUNNING)
      ensures old(current) in threads && threads[old(current)] == old(threads)[old(current)]
      ensures Kept(old(View(false)), View(false), {old(current), current, SleeperOf(old(place), gcThread, gcEvent)})
      ensures Foremost(old(threads), old(place), old(lists), current, 0)
      ensures Signalled(old(place), place, gcThread, gcEvent)
    {
      hide *;
      ValidFacts();
      ghost var s := View(false);
      Promising(0);
      var target: nat, putBack: nat;
      var crashed: bool;
      target, putBack, crashed := PickNext(PRIORITIES, 0);
      OthersRunFacts(s.threads, threads, target);
      OneHand(target, putBack);
      ghost var m := View(false);
      ViewIs(false);
      ghost var cur := current;
      GiveWay(target);
      ViewIs(false);
      SignalledOnward(s.place, m.place, place, gcThread, gcEvent);
      SleeperStays(s.place, m.place, gcThread, gcEvent);
      ghost var g, h := SleeperOf(s.place, gcThread, gcEvent), SleeperOf(m.place, gcThread, gcEvent);
      KeptJoined(s, m, View(false), {target, 0, g}, {cur, h}, {cur, target, g});
    }

    /** thread::sleep: without a time the thread only gives way. */
    method Sleep(us: nat)
      requires Valid() && threads[current].state == RUNNING && (us != 0 ==> CanRun(threads, 0))
      modifies this`next, this`queues, this`lists, this`place, this`threads, this`timers, this`lastTicket, this`log,
          this`gcPtr, this`current
      ensures Valid() && threads.Keys == old(threads).Keys && queues.Keys == old(queues).Keys
      ensures us == 0 ==> Preempted(old(View(false)), View(false), true, SleeperOf(old(place), gcThread, gcEvent))
      ensures us != 0 ==>
        Suspended(old(View(false)), View(false), 0, us, gcThread, gcEvent)
          && Foremost(old(threads), old(place), old(lists), current, 0)
          && Gathered(old(threads), old(place), old(lists), place, current, 0, old(gcPtr))
      ensures Signalled(old(place), place, gcThread, gcEvent)
    {
      hide *;
      ValidFacts();
      WorkingFacts({}, false);
      if us == 0 {
        Preempt(true);
      } else {
        SelfLocksIs(threads, place, lists, 0, 0, gcThread, gcEvent);
        ghost var s, lists0 := View(false), lists;
        ViewIs(false);
        ghost var chosen: nat;
        var crashed: bool;
        chosen, crashed := Suspend(0, us);
        SelfLocksIs(s.threads, s.place, lists0, chosen, 0, gcThread, gcEvent);
      }
    }

    /** on_timer: a thread whose time is up gets ready, and takes the core if its
        priority is better than that of the thread on it. */
    method TimerFires(k: nat)
      requires Valid() && k in timers
      modifies this`next, this`queues, this`lists, this`place, this`threads, this`timers, this`log, this`gcPtr,
          this`current
      ensures Valid() && threads.Keys == old(threads).Keys && queues.Keys == old(queues).Keys && k !in timers
      ensures TimedOut(old(View(false)), View(false), old(timers)[k], SleeperOf(old(place), gcThread, gcEvent))
      ensures Signalled(old(place), place, gcThread, gcEvent)
    {
      hide *;
      ValidFacts();
      ghost var s := View(false);
      var t := timers[k];
      TimerOwner(s, k);
      if threads[t].ticket != k {
        return;
      }
      TimeoutReadyIs(s, t);
      NobodyHeld(t);
      AfterReadyIs(threads[t], TIMEOUT);
      var r := SetReady(t, TIMEOUT, {}, false);
      ViewIs(false);
      ghost var p := place;
      SignalledBack(s.place, p, t, gcThread, gcEvent);
      if threads[t].priority < threads[current].priority {
        TakeCore(t);
        SleeperStays(s.place, p, gcThread, gcEvent);
        TimeoutTakesCore(s, View(false), t, SleeperOf(p, gcThread, gcEvent), SleeperOf(s.place, gcThread, gcEvent));
      } else {
        ReadyPut(t, {t}, false);
        SignalledBack(p, place, t, gcThread, gcEvent);
        ViewIs(false);
        NothingLeft({t}, t);
        TimeoutWaits(s, View(false), t, SleeperOf(s.place, gcThread, gcEvent));
        BecomesValid();
      }
      SignalledOnward(s.place, p, place, gcThread, gcEvent);
    }

    /** A ready thread in hand takes the core at once. */
    method TakeCore(t: nat)
      requires Working({t}, false) && current in threads && current != 0 && t != current && t in threads
        && threads[t].state == READY
      requires threads[current].state == RUNNING || threads[current].state == STOPPED
      modifies this`next, this`queues, this`lists, this`place, this`threads, this`timers, this`log, this`gcPtr,
          this`current
      ensures Valid() && threads.Keys == old(threads).Keys && queues.Keys == old(queues).Keys
      ensures forall j :: j in timers ==> j in old(timers)
      ensures TookCore(old(View(false)), View(false), t, SleeperOf(old(place), gcThread, gcEvent))
      ensures Signalled(old(place), place, gcThread, gcEvent)
    {
      hide *;
      WorkingFacts({t}, false);
      ghost var s := View(false);
      var ok := SetRunning(t, {t}, false);
      ghost var m := View(false);
      ViewIs(false);
      GiveWay(t);
      ViewIs(false);
      TookCoreIs(s, m, View(false), t, SleeperOf(s.place, gcThread, gcEvent));
    }

    /** The notification of an object by the running thread. */
    method Notify(o: nat) returns (count: nat)
      requires Valid() && Wait(o) in queues
      modifies this`next, this`queues, this`lists, this`place, this`threads, this`timers
      ensures Valid() && Wait(o) in old(lists) && queues.Keys == old(queues).Keys
      ensures count == |old(lists)[Wait(o)]| && WokeUp(old(View(false)), View(false), old(lists)[Wait(o)], NOTIFY)
      // first come, first served, among those of equal priority
      ensures QueuedUp(old(lists)[Wait(o) := []], lists, old(threads), old(lists)[Wait(o)])
      ensures Signalled(old(place), place, gcThread, gcEvent)
    {
      var crashed: bool;
      count, crashed := NotifyAll(o, NOTIFY, {}, false);
    }

    /** kill: a thread in its critical section is only marked. A waiting one goes
        to the collector, a ready one stays queued until it is met, and the
        running one leaves the core. */
    method Kill(t: nat)
      requires Valid() && threads[current].state == RUNNING && t in threads
      requires t == current && !threads[t].critical ==> CanRun(threads, 0)
      modifies this`next, this`queues, this`lists, this`place, this`threads, this`timers, this`log, this`gcPtr,
          this`current
      ensures Valid() && threads.Keys == old(threads).Keys && queues.Keys == old(queues).Keys
      ensures old(threads)[t].critical ==>
        threads == old(threads)[t := old(threads)[t].(killed := true)] && current == old(current)
          && View(false) == old(View(false)).(threads := threads) && lists == old(lists)
      ensures !old(threads)[t].critical ==> threads[t].state == STOPPED
      ensures !old(threads)[t].critical && old(threads)[t].state == WAITING ==>
        place[t] == InQueue(Gc) && threads[t] == old(threads)[t].(state := STOPPED, waitFor := 0, ticket := 0)
      ensures t == old(current) && !old(threads)[t].critical ==>
        gcPtr == t && current != t && threads[t] == old(threads)[t].(state := STOPPED)
          && TookUp(old(threads), threads, current) && threads[current].state == RUNNING
          && Escaped(old(threads), old(place), old(lists), current, SleeperOf(old(place), gcThread, gcEvent))
      ensures t != old(current) || old(threads)[t].critical ==> current == old(current)
      ensures Kept(old(View(false)), View(false),
          {t, SleeperOf(old(place), gcThread, gcEvent)} + if current == old(current) then {} else {current})
      ensures Signalled(old(place), place, gcThread, gcEvent)
      ensures !old(threads)[t].critical && old(threads)[t].state == READY ==>
        threads == old(threads)[t := old(threads)[t].(state := STOPPED)] && place == old(place) && lists == old(lists)
          && gcPtr == old(gcPtr)
    {
      hide *;
      ValidFacts();
      ghost var s := View(false);
      ghost var g := SleeperOf(place, gcThread, gcEvent);
      JustTwo(t, g);
      NothingNew(place, gcThread, gcEvent);
      var th := threads[t];
      if th.critical {
        CriticalAlive(s, t);
        MarkKeeps(s, t, th.(killed := true));
        threads := threads[t := th.(killed := true)];
        ViewIs(false);
        KeptAll(s, View(false), t);
        KeptUp(s, View(false), {t}, {t, g});
        BecomesWorking({}, false);
        BecomesValid();
        return;
      }
      if th.state == WAITING {
        KillWaiting(t);
        SignalledAwake(s.place, place, gcThread, gcEvent);
      } else {
        StopKeeps(s, t);
        threads := threads[t := th.(state := STOPPED)];
        ViewIs(false);
        ghost var m := View(false);
        KeptAll(s, m, t);
        BecomesWorking({}, false);
        BecomesValid();
        if t == current {
          CanStillRun(s.threads, threads, t);
          ghost var l := lists;
          RunningPlace(s, t);
          Preempt(true);
          ValidFacts();
          ViewIs(false);
          KilledSelf(s, m, View(false), t, g);
          LeftBehind(s, m, View(false), t, g);
          EscapedStill(s, m, l, t, current, g);
        } else {
          KeptUp(s, m, {t}, {t, g});
        }
      }
    }

    /** A waiting thread is taken off its queue and its timer, and collected. */
    method KillWaiting(t: nat)
      requires Valid() && t in threads && threads[t].state == WAITING && !threads[t].critical
      modifies this`next, this`queues, this`lists, this`place, this`threads, this`timers, this`log
      ensures Valid() && threads.Keys == old(threads).Keys && queues.Keys == old(queues).Keys
      ensures threads[t] == old(threads)[t].(state := STOPPED, waitFor := 0, ticket := 0) && place[t] == InQueue(Gc)
      ensures Kept(old(View(false)), View(false), {t, SleeperOf(old(place), gcThread, gcEvent)})
      ensures !Asleep(place, gcThread, gcEvent)
    {
      hide *;
      ValidFacts();
      ghost var s := View(false);
      StopWaiting(t);
      ghost var m := View(false);
      ViewIs(false);
      SelfLocksIs(threads, place, lists, 0, 0, gcThread, gcEvent);
      ghost var woken: seq<nat>;
      var crashed: bool;
      woken, crashed := GcSignal(0, 0, {}, false);
      ViewIs(false);
      SleeperElsewhere(s.place, t, gcThread, gcEvent);
      SleeperIs(m.place, gcThread, gcEvent);
      KilledWaiting(s, m, View(false), t, woken, SleeperOf(m.place, gcThread, gcEvent),
          SleeperOf(s.place, gcThread, gcEvent));
      WorkingFacts({}, false);
      NullIsAwake(View(false), {}, gcThread, gcEvent);
      BecomesValid();
    }

    /** The first half of that, before the collector is signalled. */
    method StopWaiting(t: nat)
      requires Working({}, false) && t in threads && threads[t].state == WAITING && !threads[t].critical
      modifies this`next, this`queues, this`lists, this`place, this`threads, this`timers, this`log
      ensures Working({}, false) && queues.Keys == old(queues).Keys
      ensures t in old(place) && place == old(place)[t := Nowhere][t := InQueue(Gc)]
      ensures threads == old(threads)[t := old(threads)[t].(state := STOPPED, waitFor := 0, ticket := 0)]
    {
      hide *;
      WorkingFacts({}, false);
      ghost var s := View(false);
      var th := threads[t];
      NobodyHeld(t);
      WaitingFacts(s, {}, t);
      WaitQueueExists(next, queues, lists, place, t, th.waitFor);
      StopWaitingKeeps(s, t);
      ghost var u := StoppedWaiting(s, t);
      if th.waitFor != 0 {
        var found := Cancel(th.waitFor, t);
      }
      timers := timers - {th.ticket};
      threads := threads[t := th.(state := STOPPED, waitFor := 0, ticket := 0)];
      BecomesView({t}, false, u);
      OnStop(t, {t}, false);
      NothingLeft({t}, t);
    }

    /** hold: the running thread enters its critical section. */
    method Hold()
      requires Valid() && threads[current].state == RUNNING && !threads[current].critical
      modifies this`threads
      ensures Valid() && threads == old(threads)[current := old(threads)[current].(critical := true, killed := false)]
    {
      hide *;
      ValidFacts();
      ghost var s := View(false);
      MarkKeeps(s, current, threads[current].(critical := true, killed := false));
      threads := threads[current := threads[current].(critical := true, killed := false)];
      ViewIs(false);
      BecomesWorking({}, false);
      BecomesValid();
    }

    /** drop: it leaves its critical section, and stops there if it was killed inside. */
    method Drop()
      requires Valid() && threads[current].state == RUNNING && threads[current].critical
      requires threads[current].killed ==> CanRun(threads, 0)
      modifies this`next, this`queues, this`lists, this`place, this`threads, this`timers, this`log, this`gcPtr,
          this`current
      ensures Valid() && threads.Keys == old(threads).Keys
      ensures !old(threads)[old(current)].killed ==> current == old(current)
      ensures !old(threads)[old(current)].killed ==>
        threads == old(threads)[current := old(threads)[current].(critical := false)]
          && View(false) == old(View(false)).(threads := threads) && lists == old(lists)
      ensures Signalled(old(place), place, gcThread, gcEvent)
      ensures old(threads)[old(current)].killed ==>
        current != old(current) && gcPtr == old(current) && threads[current].state == RUNNING
          && old(current) in threads
          && threads[old(current)] == old(threads)[old(current)].(state := STOPPED, critical := false)
          && TookUp(old(threads), threads, current)
          && Escaped(old(threads), old(place), old(lists), current, SleeperOf(old(place), gcThread, gcEvent))
          && Kept(old(View(false)), View(false),
              {old(current), SleeperOf(old(place), gcThread, gcEvent)} + {current})
    {
      hide *;
      ValidFacts();
      ghost var s, lists0 := View(false), lists;
      RunningPlace(s, current);
      var cur := current;
      NothingNew(place, gcThread, gcEvent);
      var th := threads[cur];
      MarkKeeps(s, cur, th.(critical := false));
      threads := threads[cur := th.(critical := false)];
      ViewIs(false);
      BecomesWorking({}, false);
      BecomesValid();
      if !th.killed {
        return;
      }
      StopKeeps(View(false), cur);
      threads := threads[cur := threads[cur].(state := STOPPED)];
      ViewIs(false);
      BecomesWorking({}, false);
      BecomesValid();
      CanStillRun(s.threads, threads, cur);
      ghost var m := View(false);
      KeptAll(s, m, cur);
      Preempt(true);
      ViewIs(false);
      ValidFacts();
      LeftBehind(s, m, View(false), cur, SleeperOf(m.place, gcThread, gcEvent));
      KilledSelf(s, m, View(false), cur, SleeperOf(m.place, gcThread, gcEvent));
      EscapedStill(s, m, lists0, cur, current, SleeperOf(m.place, gcThread, gcEvent));
    }

    /** One round of the collector: a stopped thread is taken from its queue, those
        who wait for its end are woken, and it is gone. */
    method Collect() returns (t: nat)
      requires Valid()
      modifies this`next, this`queues, this`lists, this`place, this`threads, this`timers, this`gone
      ensures Valid() && Gc in old(lists) && queues.Keys == old(queues).Keys
      ensures t == 0 <==> old(lists)[Gc] == []
      ensures t != 0 ==>
        t == old(lists)[Gc][0] && t in old(threads) && old(threads)[t].state == STOPPED && t !in old(gone)
      ensures t == 0 ==> View(false) == old(View(false)) && lists == old(lists)
      // the thread is gone, who waited for its end is ready, and nobody else is touched
      ensures t != 0 ==> Wait(t) in old(lists) && WokeUp(
          Snap(old(threads), old(place)[t := Nowhere], Core(current, gcPtr, old(gone) + {t}), old(timers), lastTicket,
              log), View(false), old(lists)[Wait(t)], NOTIFY)
      ensures t != 0 ==> QueuedUp(old(lists)[Gc := old(lists)[Gc][1..]][Wait(t) := []], lists, old(threads),
          old(lists)[Wait(t)])
      ensures Signalled(old(place), place, gcThread, gcEvent)
    {
      hide *;
      ghost var p := place;
      t := Bury();
      if t != 0 {
        ghost var q := place;
        ViewIs(false);
        var count := Notify(t);
        SignalledOnward(p, q, place, gcThread, gcEvent);
      }
    }

    /** The first thread of the collector's queue is taken off, for good. */
    method Bury() returns (t: nat)
      requires Valid()
      modifies this`next, this`queues, this`lists, this`place, this`gone
      ensures Valid() && Gc in old(lists) && queues.Keys == old(queues).Keys
      ensures t == 0 <==> old(lists)[Gc] == []
      ensures t == 0 ==> View(false) == old(View(false)) && lists == old(lists)
      ensures t != 0 ==> t == old(lists)[Gc][0] && t in threads && threads[t].state == STOPPED
      ensures t != 0 ==> t !in old(gone) && gone == old(gone) + {t} && place == old(place)[t := Nowhere]
      ensures t != 0 ==> lists == old(lists)[Gc := old(lists)[Gc][1..]] && Wait(t) in queues
      ensures t != 0 ==> Wait(t) in lists && Wait(t) in old(lists) && lists[Wait(t)] == old(lists)[Wait(t)]
      ensures Signalled(old(place), place, gcThread, gcEvent)
    {
      hide *;
      ValidFacts();
      WorkingFacts({}, false);
      ghost var s := View(false);
      t := QueueGet(Gc);
      if t == 0 {
        ViewIs(false);
        NothingNew(place, gcThread, gcEvent);
      } else {
        SignalledPut(s.place, t, Nowhere, gcThread, gcEvent);
        HasQueue(queues.Keys, place.Keys, gcEvent, t);
        BuryKeeps(s, {}, t);
        gone := gone + {t};
      }
      BecomesWorking({}, false);
      WorkingFacts({}, false);
      BecomesValid();
    }

    /** The constructor of a waitable object: nobody waits for it yet. */
    method Open(o: nat)
      requires Valid() && o != 0 && Wait(o) !in queues
      modifies this`queues, this`lists
      ensures Valid() && queues == old(queues)[Wait(o) := Queue(0, 0)] && lists == old(lists)[Wait(o) := []]
    {
      hide *;
      ValidFacts();
      WorkingFacts({}, false);
      OpenLayout(next, queues, lists, place, o);
      QueuesMore(queues.Keys, place.Keys, gcEvent, Wait(o));
      CollectorApart(lists, gcEvent, gcThread, o);
      queues := queues[Wait(o) := Queue(0, 0)];
      lists := lists[Wait(o) := []];
      BecomesLayout();
      BecomesWorking({}, false);
      BecomesValid();
    }

    /** The constructor of a thread: it can be waited for, and is ready from the start. */
    method Spawn(t: nat, priority: nat)
      requires Valid() && t !in threads && t != 0 && Wait(t) !in queues && priority < PRIORITIES
      modifies this`next, this`queues, this`lists, this`place, this`threads
      ensures Valid() && place == old(place)[t := InQueue(Ready(priority))]
      ensures threads == old(threads)[t := Thread(READY, false, false, priority, 0, 0, NONE)]
      ensures queues.Keys == old(queues).Keys + {Wait(t)} && Ready(priority) in old(lists)
      ensures lists == old(lists)[Wait(t) := []][Ready(priority) := old(lists)[Ready(priority)] + [t]]
    {
      hide *;
      Open(t);
      Enroll(t, priority);
    }

    method Enroll(t: nat, priority: nat)
      requires Valid() && t !in threads && t != 0 && Wait(t) in queues && priority < PRIORITIES
      modifies this`next, this`queues, this`lists, this`place, this`threads
      ensures Valid() && place == old(place)[t := InQueue(Ready(priority))] && queues.Keys == old(queues).Keys
      ensures threads == old(threads)[t := Thread(READY, false, false, priority, 0, 0, NONE)]
      ensures Ready(priority) in old(lists) && lists == old(lists)[Ready(priority) := old(lists)[Ready(priority)] + [t]]
    {
      hide *;
      ValidFacts();
      WorkingFacts({}, false);
      var th := Thread(READY, false, false, priority, 0, 0, NONE);
      SpawnKeeps(View(false), t, th);
      SpawnLayout(next, queues, lists, place, t);
      QueuesStill(queues.Keys, place.Keys, gcEvent, t);
      threads := threads[t := th];
      place := place[t := Nowhere];
      BecomesLayout();
      BecomesWorking({t}, false);
      ReadyPut(t, {t}, false);
      NothingLeft({t}, t);
      BecomesValid();
    }

    /** Every thread stands in exactly one place, which its state dictates. */
    lemma OnePlace(t: nat)
      requires Valid() && t in threads
      ensures forall q, r :: Listed(lists, q, t) && Listed(lists, r, t) ==> q == r
      ensures threads[t].state == READY ==> exists p: nat :: p < PRIORITIES && Listed(lists, Ready(p), t)
      ensures threads[t].state == RUNNING <==> t == current && threads[t].state != STOPPED
      ensures threads[t].state == WAITING && threads[t].waitFor != 0 ==> Listed(lists, Wait(threads[t].waitFor), t)
      ensures threads[t].state == WAITING && threads[t].waitFor == 0 ==>
        (forall q :: !Listed(lists, q, t)) && threads[t].ticket in timers && timers[threads[t].ticket] == t
      ensures threads[t].state == STOPPED ==>
        (exists p: nat :: p < PRIORITIES && Listed(lists, Ready(p), t)) || Listed(lists, Gc, t) || t == current
          || t == gcPtr || t in gone
      ensures t == current || t == gcPtr || t in gone ==> forall q :: !Listed(lists, q, t)
    {
      var p := place[t];
      if p.InQueue? {
        assert Listed(lists, p.q, t);
      }
      assert forall q :: Listed(lists, q, t) ==> p == InQueue(q);
    }

    lemma Promising(skip: nat)
      requires Working({}, false) && CanRun(threads, skip)
      ensures !NoneAlive(threads, place, PRIORITIES, skip)
    {
      var t :| t in threads && t != skip && threads[t].state == READY;
      forall x | x in place && InReady(place[x]) ensures PriorityOf(place[x]) < PRIORITIES {
        assert Listed(lists, place[x].q, x);
      }
      FoundOne(View(false), skip, t);
    }

    lemma Depart(held: set<nat>)
      requires Working(held, false) && current in threads && current != 0
      ensures current !in held && Working(held + {current}, true)
    {
      hide Layout, TicketsOk, LogOk, FieldsOk;
    }

    lemma PlacesOf()
      requires LayoutOk(next, queues, lists, place)
      ensures InPlace(lists, place)
    {
    }

    lemma ValidFacts()
      requires Valid()
      ensures Working({}, false) && current != 0 && current in threads && threads.Keys == place.Keys
      ensures Inv(View(false), {}) && forall t :: t in threads ==> t != 0
      ensures View(false) == Snap(threads, place, Core(current, gcPtr, gone), timers, lastTicket, log)
      ensures threads[current].state == RUNNING || threads[current].state == STOPPED
    {
    }

    lemma BecomesValid()
      requires Working({}, false) && current != 0
      ensures Valid()
    {
    }

    lemma ViewIs(out: bool)
      ensures View(out) == Snap(threads, place, Core(if out then 0 else current, gcPtr, gone), timers, lastTicket, log)
    {
    }

    lemma WorkingFacts(held: set<nat>, out: bool)
      requires Working(held, out)
      ensures Layout() && Inv(View(out), held) && threads.Keys == place.Keys && held <= threads.Keys
      ensures LayoutOk(next, queues, lists, place) && lists.Keys == queues.Keys
      ensures QueuesFor(queues.Keys, place.Keys, gcEvent) && Gc in queues && Wait(gcEvent) in queues
      ensures gcEvent != 0 && OnlyCollector(lists, gcEvent, gcThread) && 0 !in threads
      ensures View(out) == Snap(threads, place, Core(if out then 0 else current, gcPtr, gone), timers, lastTicket, log)
    {
    }

    lemma BecomesWorking(held: set<nat>, out: bool)
      requires Layout()
      requires Inv(Snap(threads, place, Core(if out then 0 else current, gcPtr, gone), timers, lastTicket, log), held)
      ensures Working(held, out)
    {
    }

    /** The same with the state that is to come given by name. */
    lemma BecomesView(held: set<nat>, out: bool, u: Snap)
      requires Layout() && Inv(u, held)
      requires u.threads == threads && u.place == place && u.core == Core(if out then 0 else current, gcPtr, gone)
      requires u.timers == timers && u.last == lastTicket && u.log == log
      ensures Working(held, out) && View(out) == u
    {
    }

    lemma LayoutFacts()
      requires Layout()
      ensures LayoutOk(next, queues, lists, place) && lists.Keys == queues.Keys
      ensures QueuesFor(queues.Keys, place.Keys, gcEvent) && Gc in queues && Wait(gcEvent) in queues
      ensures gcEvent != 0 && OnlyCollector(lists, gcEvent, gcThread)
    {
    }

    lemma BecomesLayout()
      requires LayoutOk(next, queues, lists, place)
      requires QueuesFor(queues.Keys, place.Keys, gcEvent) && OnlyCollector(lists, gcEvent, gcThread)
      ensures Layout()
    {
    }
  }

  // ---------------------------------------------------------------------
  // Three runs that go wrong
  // ---------------------------------------------------------------------

  /** The queues at boot: thread 1 and object 9, which is the collector's event. */
  function BootQueues(): (s: set<QueueId>)
    ensures forall p: nat :: Ready(p) in s <==> p < PRIORITIES
    ensures Gc in s && forall o: nat :: Wait(o) in s <==> o == 1 || o == 9
  {
    (set p: nat | p < PRIORITIES :: Ready(p)) + {Gc, Wait(1), Wait(9)}
  }

  lemma SixteenPriorities()
    ensures PRIORITIES == 16
  {
  }

  lemma RunsBy(threads: Threads, t: nat, skip: nat)
    requires t in threads && t != skip && threads[t].state == READY
    ensures CanRun(threads, skip)
  {
  }

  /** Where a thread stands. */
  datatype Spot = Spot(state: State, place: Place)

  ghost predicate Stands(s: Snap, t: nat, at: Spot) {
    t in s.threads && s.threads[t].state == at.state && t in s.place && s.place[t] == at.place
  }

  const OnTheCore := Spot(RUNNING, Nowhere)
  const Sleeping := Spot(WAITING, Nowhere)
  const Collected := Spot(STOPPED, InQueue(Gc))

  /** A kernel with four threads: 2 is the collector, 4 idles, and cur has the core. */
  ghost predicate Four(s: Snap, cur: nat, at1: Spot, at2: Spot, at3: Spot) {
    && s.threads.Keys == s.place.Keys == {1, 2, 3, 4} && s.core.current == cur && !s.threads[3].critical
    && Stands(s, 1, at1) && Stands(s, 2, at2) && Stands(s, 3, at3) && Stands(s, 4, Spot(READY, InQueue(Ready(15))))
  }

  function InLine(priority: nat): Spot {
    Spot(READY, InQueue(Ready(priority)))
  }

  lemma SpotsAre(priority: nat)
    ensures InLine(priority) == Spot(READY, InQueue(Ready(priority))) && Sleeping == Spot(WAITING, Nowhere)
  {
  }

  lemma FourFacts(s: Snap, cur: nat, at1: Spot, at2: Spot, at3: Spot)
    requires Four(s, cur, at1, at2, at3) && (cur == 1 ==> at1 == OnTheCore)
    requires (cur == 2 ==> at2 == OnTheCore) && (cur == 3 ==> at3 == OnTheCore) && cur in {1, 2, 3}
    ensures cur in s.threads && s.threads[cur].state == RUNNING && s.core.current == cur
    ensures CanRun(s.threads, 0) && CanRun(s.threads, 9) && 3 in s.threads && !s.threads[3].critical
    ensures s.threads[3].state == at3.state
  {
    assert 4 in s.threads && s.threads[4].state == READY;
  }

  /** Thread 1 of priority 3 runs; the collector has priority 4. */
  method BootFour(priority: nat) returns (k: Kernel)
    requires priority < PRIORITIES
    ensures fresh(k) && k.Valid() && k.gcThread == 2 && k.gcEvent == 9 && Wait(9) in k.queues && k.gcPtr == 0
    ensures Four(k.View(false), 1, OnTheCore, InLine(4), InLine(priority))
    ensures 1 in k.threads && k.threads[1].priority == 3
  {
    hide *;
    SixteenPriorities();
    k := BootTwo();
    k.Spawn(3, priority);
    k.Spawn(4, 15);
    k.ViewIs(false);
    BornFour(k.View(false), priority);
  }

  method BootTwo() returns (k: Kernel)
    ensures fresh(k) && k.Valid() && k.gcThread == 2 && k.gcEvent == 9 && k.current == 1 && k.gcPtr == 0
    ensures k.queues.Keys == BootQueues() + {Wait(2)} && k.place == map[1 := Nowhere][2 := InQueue(Ready(4))]
    ensures k.threads ==
      map[1 := Thread(RUNNING, false, false, 3, 0, 0, NONE)][2 := Thread(READY, false, false, 4, 0, 0, NONE)]
  {
    hide *;
    SixteenPriorities();
    k := new Kernel(1, 2, 9, BootQueues());
    k.Spawn(2, 4);
  }

  lemma BornFour(s: Snap, priority: nat)
    requires s.threads == map[1 := Thread(RUNNING, false, false, 3, 0, 0, NONE)]
      [2 := Thread(READY, false, false, 4, 0, 0, NONE)][3 := Thread(READY, false, false, priority, 0, 0, NONE)]
      [4 := Thread(READY, false, false, 15, 0, 0, NONE)]
    requires s.place == map[1 := Nowhere][2 := InQueue(Ready(4))][3 := InQueue(Ready(priority))]
      [4 := InQueue(Ready(15))]
    requires s.core.current == 1
    ensures Four(s, 1, OnTheCore, InLine(4), InLine(priority)) && s.threads[1].priority == 3
  {
  }

  /** Thread 3 waits and is killed by thread 1 while the collector has not yet come to
      wait for its event, so that the signal finds nobody. Then the collector goes
      to sleep, with thread 3 in its queue. */
  method CollectorOversleeps() returns (k: Kernel)
    ensures fresh(k) && k.Valid() && !Attended(k.place, k.gcThread, k.gcEvent)
  {
    hide *;
    k := KilledInTime();
    ghost var s, lists := k.View(false), k.lists;
    k.ViewIs(false);
    FourFacts(s, 2, Sleeping, OnTheCore, Collected);
    ghost var chosen: nat;
    var crashed: bool;
    chosen, crashed := k.Suspend(9, 0);
    NobodyMet(s, lists, chosen);
  }

  /** The first part of that run. */
  method KilledInTime() returns (k: Kernel)
    ensures fresh(k) && k.Valid() && k.gcThread == 2 && k.gcEvent == 9 && Wait(9) in k.queues && k.gcPtr == 0
    ensures Four(k.View(false), 2, Sleeping, OnTheCore, Collected)
  {
    hide *;
    k := ThreeSleeps();
    ghost var s := k.View(false);
    k.ViewIs(false);
    FourFacts(s, 1, OnTheCore, InLine(4), Sleeping);
    SpotsAre(4);
    k.Kill(3);
    ghost var u, lists := k.View(false), k.lists;
    k.ViewIs(false);
    k.ValidFacts();
    KilledAsleep(s, u);
    FourFacts(u, 1, OnTheCore, InLine(4), Collected);
    k.Sleep(1);
    k.ViewIs(false);
    k.ValidFacts();
    CollectorNext(u, k.View(false), lists, Collected);
  }

  /** Thread 1 gives way to thread 3, and has the core again when that sleeps. */
  method ThreeSleeps() returns (k: Kernel)
    ensures fresh(k) && k.Valid() && k.gcThread == 2 && k.gcEvent == 9 && Wait(9) in k.queues
    ensures Four(k.View(false), 1, OnTheCore, InLine(4), Sleeping)
  {
    hide *;
    SixteenPriorities();
    k := BootFour(2);
    ghost var s := k.View(false);
    k.ViewIs(false);
    FourFacts(s, 1, OnTheCore, InLine(4), InLine(2));
    k.Sleep(0);
    ghost var u, lists := k.View(false), k.lists;
    k.ViewIs(false);
    k.ValidFacts();
    ThreeNext(s, u);
    FourFacts(u, 3, InLine(3), InLine(4), OnTheCore);
    k.Sleep(1);
    k.ViewIs(false);
    k.ValidFacts();
    OneNext(u, k.View(false), lists);
  }

  lemma ThreeNext(s: Snap, u: Snap)
    requires Four(s, 1, OnTheCore, InLine(4), InLine(2)) && s.threads[1].priority == 3
    requires Preempted(s, u, true, SleeperOf(s.place, 2, 9)) && u.threads.Keys == s.threads.Keys && Inv(u, {})
    ensures Four(u, 3, InLine(3), InLine(4), OnTheCore)
  {
    hide TicketsOk, LogOk, FieldsOk, Asleep, SleeperOf, Kept;
    assert ReadyAt(s.place, 3, 2);
    AwakeInLine(s, u);
  }

  lemma AwakeInLine(s: Snap, u: Snap)
    requires Four(s, 1, OnTheCore, InLine(4), InLine(2)) && u.core.current == 3
    requires Kept(s, u, {1, 3, SleeperOf(s.place, 2, 9)}) && u.threads.Keys == s.threads.Keys == u.place.Keys
    ensures Stands(u, 2, InLine(4)) && Stands(u, 4, InLine(15))
  {
  }

  lemma OneNext(s: Snap, u: Snap, lists: Lists)
    requires Four(s, 3, InLine(3), InLine(4), OnTheCore) && Suspended(s, u, 0, 1, 2, 9)
    requires Foremost(s.threads, s.place, lists, u.core.current, 0) && u.threads.Keys == s.threads.Keys && Inv(u, {})
    ensures Four(u, 1, OnTheCore, InLine(4), Sleeping)
  {
    assert Ahead(s.place, lists, 1, 2) && Ahead(s.place, lists, 1, 4);
  }

  lemma KilledAsleep(s: Snap, u: Snap)
    requires Four(s, 1, OnTheCore, InLine(4), Sleeping) && Kept(s, u, {3, SleeperOf(s.place, 2, 9)} + {})
    requires u.core.current == 1 && u.threads.Keys == s.threads.Keys == u.place.Keys && Inv(u, {})
    requires u.threads[3].state == STOPPED && u.place[3] == InQueue(Gc)
    ensures Four(u, 1, OnTheCore, InLine(4), Collected)
  {
  }

  /** Thread 1 sleeps and the collector is next. */
  lemma CollectorNext(s: Snap, u: Snap, lists: Lists, at3: Spot)
    requires Four(s, 1, OnTheCore, InLine(4), at3) && Suspended(s, u, 0, 1, 2, 9)
    requires Foremost(s.threads, s.place, lists, u.core.current, 0) && u.threads.Keys == s.threads.Keys && Inv(u, {})
    requires at3 == Collected || at3 == Spot(STOPPED, InQueue(Ready(5)))
    requires at3 != Collected ==> Gathered(s.threads, s.place, lists, u.place, u.core.current, 0, 0)
    ensures Four(u, 2, Sleeping, OnTheCore, at3) && u.core.gcPtr == 0
  {
    assert Ahead(s.place, lists, 2, 4);
    assert u.core.current == 2;
    if at3 != Collected {
      NotYetMet(s, u.place, lists);
    }
  }

  lemma NobodyMet(s: Snap, lists: Lists, chosen: nat)
    requires Four(s, 2, Sleeping, OnTheCore, Collected)
    ensures !SelfLocks(s.threads, s.place, lists, chosen, 9, 2, 9) && GcPending(s.place)
  {
    assert InGc(s.place, 3);
  }

  /** Thread 3 is killed while it is ready. The collector meets it on its way to
      sleep, when it holds the lock of its event. */
  method CollectorSpins() returns (k: Kernel, crashed: bool)
    ensures fresh(k) && crashed
  {
    hide *;
    k := KilledReady();
    ghost var s, lists := k.View(false), k.lists;
    k.ViewIs(false);
    FourFacts(s, 2, Sleeping, OnTheCore, Spot(STOPPED, InQueue(Ready(5))));
    ghost var chosen: nat;
    chosen, crashed := k.Suspend(9, 0);
    OneMet(s, lists, chosen);
  }

  /** The first part of that run. */
  method KilledReady() returns (k: Kernel)
    ensures fresh(k) && k.Valid() && k.gcThread == 2 && k.gcEvent == 9 && Wait(9) in k.queues
    ensures Four(k.View(false), 2, Sleeping, OnTheCore, Spot(STOPPED, InQueue(Ready(5))))
  {
    hide *;
    SixteenPriorities();
    k := BootFour(5);
    ghost var s := k.View(false);
    k.ViewIs(false);
    FourFacts(s, 1, OnTheCore, InLine(4), InLine(5));
    SpotsAre(5);
    k.Kill(3);
    ghost var u, lists := k.View(false), k.lists;
    k.ViewIs(false);
    KilledInLine(s, u);
    FourFacts(u, 1, OnTheCore, InLine(4), Spot(STOPPED, InQueue(Ready(5))));
    k.Sleep(1);
    k.ViewIs(false);
    k.ValidFacts();
    CollectorNext(u, k.View(false), lists, Spot(STOPPED, InQueue(Ready(5))));
  }

  lemma KilledInLine(s: Snap, u: Snap)
    requires Four(s, 1, OnTheCore, InLine(4), InLine(5)) && u.core.current == 1
    requires u.threads == s.threads[3 := s.threads[3].(state := STOPPED)] && u.place == s.place
    ensures Four(u, 1, OnTheCore, InLine(4), Spot(STOPPED, InQueue(Ready(5))))
  {
  }

  lemma NotYetMet(s: Snap, after: Places, lists: Lists)
    requires Four(s, 1, OnTheCore, InLine(4), Spot(STOPPED, InQueue(Ready(5))))
    requires Gathered(s.threads, s.place, lists, after, 2, 0, 0)
    ensures !InGc(after, 3)
  {
  }

  lemma OneMet(s: Snap, lists: Lists, chosen: nat)
    requires Four(s, 2, Sleeping, OnTheCore, Spot(STOPPED, InQueue(Ready(5))))
    requires chosen in s.threads && s.threads[chosen].state == READY
    ensures SelfLocks(s.threads, s.place, lists, chosen, 9, 2, 9)
  {
    assert Ahead(s.place, lists, 3, 4);
  }

  /** Thread 1 waits for an object that thread 2 then abandons. */
  method AbandonedWaiterCrashes() returns (k: Kernel, crashed: bool)
    ensures fresh(k) && crashed
  {
    hide *;
    SixteenPriorities();
    k := new Kernel(1, 3, 9, BootQueues());
    k.Open(7);
    k.Spawn(2, 5);
    k.ViewIs(false);
    ghost var s, lists := k.View(false), k.lists;
    RunsBy(k.threads, 2, 7);
    NobodyLocked(s.threads, s.place, lists, 7, 3, 9);
    var locked: bool;
    ghost var chosen: nat;
    chosen, locked := k.Suspend(7, 0);
    k.ViewIs(false);
    k.ValidFacts();
    k.WorkingFacts({}, false);
    WaiterListed(s, k.View(false), k.next, k.queues, k.lists, 7);
    var count: nat;
    count, crashed := k.NotifyAll(7, ABANDON, {}, false);
  }

  lemma NobodyLocked(threads: Threads, place: Places, lists: Lists, o: nat, gcThread: nat, gcEvent: nat)
    requires o != gcEvent && o != gcThread
    ensures forall t: nat :: !SelfLocks(threads, place, lists, t, o, gcThread, gcEvent)
  {
  }

  lemma WaiterListed(s: Snap, u: Snap, next: Links, queues: Queues, lists: Lists, o: nat)
    requires Suspended(s, u, o, 0, 3, 9) && s.core.current == 1 && o != 0
    requires Inv(u, {}) && LayoutOk(next, queues, lists, u.place)
    ensures Wait(o) in lists && lists[Wait(o)] != []
  {
    assert u.place[1] == InQueue(Wait(o));
    assert Listed(lists, Wait(o), 1);
  }

  lemma HeldFacts(s: Snap, held: set<nat>, t: nat)
    requires Inv(s, held) && t in held
    ensures t in s.threads && t in s.place && s.place[t] == Nowhere && FieldsOk(s.threads[t]) && t != 0
    ensures s.threads[t].priority < PRIORITIES
  {
  }

  lemma NowhereIsUnlisted(lists: Lists, place: Places)
    requires InPlace(lists, place)
    ensures forall q, x :: x in place && place[x] == Nowhere ==> !Listed(lists, q, x)
    ensures forall q, x :: x in place && place[x] == InQueue(q) ==> Listed(lists, q, x)
  {
  }

  lemma Unlisted(lists: Lists, place: Places, q: QueueId, t: nat)
    requires InPlace(lists, place) && t in place
    ensures place[t] == Nowhere ==> !Listed(lists, q, t)
    ensures place[t] == InQueue(q) ==> Listed(lists, q, t)
  {
  }

  lemma StoredLayout(next: Links, queues: Queues, lists: Lists, place: Places)
    requires LayoutOk(next, queues, lists, place)
    ensures AllStored(next, queues, lists)
  {
  }

  lemma StillNowhere(place: Places, t: nat)
    requires t in place && place[t] == Nowhere
    ensures place[t := Nowhere] == place
  {
  }

  lemma PutReadyKeeps(s: Snap, held: set<nat>, t: nat)
    requires Inv(s, held) && t in held && (s.threads[t].state == READY || s.threads[t].state == STOPPED)
    ensures Inv(s.(place := s.place[t := InQueue(Ready(s.threads[t].priority))]), held - {t})
  {
    var th := s.threads[t];
    Change(s, held, t, th, InQueue(Ready(th.priority)), held - {t});
    assert s.threads[t := th] == s.threads;
  }

  lemma RunKeeps(s: Snap, held: set<nat>, t: nat)
    requires Inv(s, held) && t in held && s.threads[t].state == READY
    ensures Inv(s.(threads := s.threads[t := s.threads[t].(state := RUNNING)]), held)
  {
    Change(s, held, t, s.threads[t].(state := RUNNING), s.place[t], held);
    SamePlace(s, t);
  }

  lemma SamePlace(s: Snap, t: nat)
    requires t in s.place
    ensures s.place[t := s.place[t]] == s.place
  {
  }

  /** Thread t waits for object o, with a ticket if there is a time limit. */
  ghost function Waited(s: Snap, t: nat, us: nat, o: nat): (u: Snap)
    requires t in s.threads
    ensures u.core == s.core && u.log == s.log && u.last == if us != 0 then s.last + 1 else s.last
    ensures u.threads ==
      s.threads[t := s.threads[t].(state := WAITING, waitFor := o, ticket := if us != 0 then s.last + 1 else 0)]
    ensures u.place == s.place[t := if o != 0 then InQueue(Wait(o)) else Nowhere]
    ensures u.timers == if us != 0 then s.timers[s.last + 1 := t] else s.timers
  {
    Snap(s.threads[t := s.threads[t].(state := WAITING, waitFor := o, ticket := if us != 0 then s.last + 1 else 0)],
      s.place[t := if o != 0 then InQueue(Wait(o)) else Nowhere], s.core,
      if us != 0 then s.timers[s.last + 1 := t] else s.timers, if us != 0 then s.last + 1 else s.last, s.log)
  }

  lemma BeginWaitKeeps(s: Snap, held: set<nat>, t: nat, us: nat, o: nat)
    requires Inv(s, held) && t in held && s.threads[t].state == RUNNING && (us != 0 || o != 0)
    ensures t in s.threads && Inv(Waited(s, t, us, o), held - {t})
  {
    hide AllPlaced, TicketsOk, LogOk, Numbered;
    HeldFacts(s, held, t);
    HeldFree(s, held, t);
    var th := s.threads[t].(state := WAITING, waitFor := o);
    var p := if o != 0 then InQueue(Wait(o)) else Nowhere;
    if us != 0 {
      TicketKeeps(s, held, t, th);
      var u := Ticketed(s, t, th, s.last + 1);
      Change(u, held, t, u.threads[t], p, held - {t});
      SameThread(u, t);
    } else {
      Change(s, held, t, th, p, held - {t});
    }
  }

  lemma HeldFree(s: Snap, held: set<nat>, t: nat)
    requires Inv(s, held) && t in held
    ensures t != s.core.current && t != s.core.gcPtr && t !in s.core.gone
    ensures InHand(s.core, t, s.place[t])
  {
  }

  // -- waking a chain of threads --------------------------------------------

  ghost function Less(held: set<nat>, s: seq<nat>): set<nat> {
    set t | t in held && t !in s
  }

  ghost predicate Waits(threads: Threads, t: nat, o: nat, held: set<nat>) {
    t in threads && t in held && threads[t].state == WAITING && threads[t].waitFor == o
  }

  ghost predicate AllWaiting(threads: Threads, s: seq<nat>, o: nat, held: set<nat>) {
    forall t :: t in s ==> Waits(threads, t, o, held)
  }

  /** The threads of done are ready, in the queues of their priorities, and have no
      timer; nothing else changed. */
  ghost predicate WokeUp(s: Snap, u: Snap, done: seq<nat>, reason: Reason) {
    && SameKeys(s, u) && u.core == s.core && u.last == s.last && u.log == s.log
    && (forall t :: t in s.threads ==>
      u.threads[t] == if t in done then s.threads[t].(state := READY, waitFor := 0, ticket := 0, reason := reason)
        else s.threads[t])
    && (forall t :: t in s.threads ==>
      u.place[t] == if t in done then InQueue(Ready(s.threads[t].priority)) else s.place[t])
    && WokeTimers(s, u, done)
  }

  lemma WakingStarts(next: Links, s: Snap, pending: seq<nat>, reason: Reason, held: set<nat>)
    requires s.threads.Keys == s.place.Keys && Chain(next, pending)
    ensures pending[0..] == pending && Less(held, pending[..0]) == held && NoRepeats(pending)
    ensures WokeUp(s, s, pending[..0], reason)
  {
  }

  lemma WakingHere(next: Links, threads: Threads, pending: seq<nat>, k: nat, o: nat, now: set<nat>)
    requires k <= |pending| && Chain(next, pending[k..]) && AllWaiting(threads, pending[k..], o, now)
      && At(pending, k) != 0
    ensures k < |pending| && At(pending, k) == pending[k] && pending[k] in threads && pending[k] in now
    ensures threads[pending[k]].state == WAITING && threads[pending[k]].waitFor == o
    ensures pending[k] in next && next[pending[k]] == At(pending, k + 1)
    ensures Chain(next, pending[k + 1..]) && pending[k] !in pending[k + 1..]
    ensures forall x :: x in pending[k + 1..] ==> x in now
  {
    assert pending[k..][0] == pending[k];
    assert Waits(threads, pending[k..][0], o, now);
    ChainRest(next, pending[k..]);
    assert pending[k..][1..] == pending[k + 1..];
    forall x | x in pending[k + 1..] ensures x in now {
      assert x in pending[k..];
      assert Waits(threads, x, o, now);
    }
  }

  lemma StillHeld(now: set<nat>, t: nat)
    requires t in now
    ensures now + {t} == now
  {
  }

  lemma HeldAll(s: Snap, held: set<nat>)
    requires Inv(s, held)
    ensures forall t :: t in held ==> t in s.place && s.place[t] == Nowhere
  {
  }

  lemma WakingTickets(s: Snap, held: set<nat>)
    requires Inv(s, held)
    ensures TicketsOk(s.threads, s.timers, s.last)
  {
  }

  ghost predicate WokeTimers(s: Snap, u: Snap, done: seq<nat>) {
    && (forall k :: k in u.timers <==> k in s.timers && s.timers[k] !in done)
    && (forall k :: k in u.timers ==> u.timers[k] == s.timers[k])
  }

  lemma WakingView(s: Snap, u: Snap, v: Snap, pending: seq<nat>, k: nat, reason: Reason)
    requires k < |pending| && WokeUp(s, u, pending[..k], reason) && NoRepeats(pending)
    requires TicketsOk(u.threads, u.timers, u.last)
    requires pending[k] in u.threads && u.threads[pending[k]].state == WAITING
    requires v.threads == u.threads[pending[k] := AfterReady(u.threads[pending[k]], reason)]
    requires v.place == u.place[pending[k] := InQueue(Ready(u.threads[pending[k]].priority))]
    requires v.timers == u.timers - {u.threads[pending[k]].ticket} && v.core == u.core && v.last == u.last
      && v.log == u.log
    ensures WokeUp(s, v, pending[..k + 1], reason)
  {
    hide TicketsOk, AfterReady, WokeTimers;
    var t := pending[k];
    AfterReadyIs(u.threads[t], reason);
    assert forall x :: x in pending[..k + 1] <==> x in pending[..k] || x == t;
    assert t !in pending[..k];
    WakingTimers(s, u, v, pending, k);
  }

  lemma WakingTimers(s: Snap, u: Snap, v: Snap, pending: seq<nat>, k: nat)
    requires k < |pending| && pending[k] in u.threads && WokeTimers(s, u, pending[..k])
    requires TicketsOk(u.threads, u.timers, u.last) && v.timers == u.timers - {u.threads[pending[k]].ticket}
    ensures WokeTimers(s, v, pending[..k + 1])
  {
    assert forall x :: x in pending[..k + 1] <==> x in pending[..k] || x == pending[k];
  }

  lemma LinksElsewhere(n: Links, queues: Queues, lists: Lists, p: nat, t: nat, rest: seq<nat>)
    requires Ready(p) in queues && AllStored(n, queues, lists) && t !in rest && Chain(n, rest)
    requires forall x :: x in rest ==> !Listed(lists, Ready(p), x)
    ensures Chain(PutLinks(n, queues[Ready(p)], t), rest)
  {
    hide Stored, Chain, PutLinks;
    assert forall x :: x in rest ==> x !in lists[Ready(p)];
    PutElsewhere(n, queues[Ready(p)], lists[Ready(p)], t, rest);
  }

  lemma WakingRest(before: Threads, after: Threads, pending: seq<nat>, k: nat, o: nat, held: set<nat>)
    requires k < |pending| && NoRepeats(pending) && AllWaiting(before, pending[k..], o, Less(held, pending[..k]))
    requires after.Keys == before.Keys && forall t :: t in before && t != pending[k] ==> after[t] == before[t]
    ensures AllWaiting(after, pending[k + 1..], o, Less(held, pending[..k + 1]))
    ensures Less(held, pending[..k + 1]) == Less(held, pending[..k]) - {pending[k]}
  {
    var rest, now, later := pending[k + 1..], Less(held, pending[..k]), Less(held, pending[..k + 1]);
    assert forall x :: x in pending[..k + 1] <==> x in pending[..k] || x == pending[k];
    forall j: nat | j < |rest| ensures Waits(after, rest[j], o, later) {
      LaterOn(pending, k, k + 1 + j);
      assert Waits(before, pending[k + 1 + j], o, now);
    }
    EachWaits(after, rest, o, later);
  }

  lemma EachWaits(threads: Threads, s: seq<nat>, o: nat, held: set<nat>)
    requires forall j: nat :: j < |s| ==> Waits(threads, s[j], o, held)
    ensures AllWaiting(threads, s, o, held)
  {
  }

  lemma LaterOn(pending: seq<nat>, k: nat, j: nat)
    requires k < j < |pending| && NoRepeats(pending)
    ensures pending[j] in pending[k..] && pending[j] !in pending[..k + 1] && pending[j] != pending[k]
  {
    assert pending[k..][j - k] == pending[j];
  }

  lemma WakingEnds(next: Links, pending: seq<nat>, k: nat, reason: Reason)
    requires k <= |pending| && Chain(next, pending[k..]) && At(pending, k) == 0
    ensures k == |pending| && pending[..k] == pending
  {
    if k < |pending| {
      ChainRest(next, pending[k..]);
    }
  }

  lemma ListedHere(lists: Lists, place: Places, q: QueueId)
    requires InPlace(lists, place) && q in lists
    ensures forall t :: t in lists[q] ==> t in place && place[t] == InQueue(q)
  {
    assert forall t :: t in lists[q] ==> Listed(lists, q, t);
  }

  /** The threads in the wait queue of an object wait for it. */
  lemma DetachKeeps(s: Snap, held: set<nat>, pending: seq<nat>, o: nat)
    requires Inv(s, held) && forall t :: t in pending ==> t in s.place && s.place[t] == InQueue(Wait(o))
    ensures AllWaiting(s.threads, pending, o, held + (set t | t in pending))
    ensures forall t :: t in pending ==> t !in held
    ensures Inv(s.(place := Without(s.place, pending)), held + (set t | t in pending))
  {
  }

  lemma WokeFromQueue(s: Snap, pending: seq<nat>, o: nat, v: Snap, reason: Reason, held: set<nat>)
    requires s.threads.Keys == s.place.Keys && forall t :: t in pending ==> t !in held
    requires WokeUp(s.(place := Without(s.place, pending)), v, pending, reason)
    ensures WokeUp(s, v, pending, reason) && Less(held + (set t | t in pending), pending) == held
  {
  }

  lemma NobodyWoke(s: Snap, reason: Reason)
    requires s.threads.Keys == s.place.Keys
    ensures WokeUp(s, s, [], reason)
  {
  }

  lemma OneOff(s: Snap, held: set<nat>, t: nat, o: nat)
    requires Inv(s, held) && t in s.place && s.place[t] == InQueue(Wait(o))
    ensures AllWaiting(s.threads, [t], o, held + {t}) && t !in held
    ensures Inv(s.(place := s.place[t := Nowhere]), held + {t})
  {
    assert Without(s.place, [t]) == s.place[t := Nowhere];
    DetachKeeps(s, held, [t], o);
    assert (set x | x in [t]) == {t};
  }

  lemma OneOffAll(s: Snap, held: set<nat>, o: nat)
    requires Inv(s, held)
    ensures forall t :: t in s.place && s.place[t] == InQueue(Wait(o)) ==>
      t in s.threads && s.threads[t].state == WAITING && t !in held
  {
  }

  lemma SingleChain(next: Links, t: nat)
    requires t in next && next[t] == 0 && t != 0
    ensures Chain(next, [t]) && At([t], 0) == t
  {
  }

  lemma WokeOneFromQueue(s: Snap, t: nat, o: nat, v: Snap, held: set<nat>)
    requires s.threads.Keys == s.place.Keys && t in s.place && t !in held
    requires WokeUp(s.(place := s.place[t := Nowhere]), v, [t], NOTIFY)
    ensures WokeUp(s, v, [t], NOTIFY) && Less(held + {t}, [t]) == held
  {
  }

  /** The collector, if it sleeps, is at the head of the queue of its event, and nobody else is in it. */
  lemma SleeperIsHead(lists: Lists, place: Places, gcThread: nat, gcEvent: nat)
    requires InPlace(lists, place) && OnlyCollector(lists, gcEvent, gcThread) && Wait(gcEvent) in lists
    ensures lists[Wait(gcEvent)] != [] <==> Asleep(place, gcThread, gcEvent)
    ensures lists[Wait(gcEvent)] != [] ==> lists[Wait(gcEvent)][0] == gcThread
    ensures At(lists[Wait(gcEvent)], 0) == if Asleep(place, gcThread, gcEvent) then gcThread else 0
  {
    assert lists[Wait(gcEvent)] != [] ==> Listed(lists, Wait(gcEvent), lists[Wait(gcEvent)][0]);
    assert Asleep(place, gcThread, gcEvent) ==> Listed(lists, Wait(gcEvent), gcThread);
  }

  // -- switching ------------------------------------------------------------

  lemma WasteIs(s: Snap, g: nat)
    ensures Waste(s, g) == Snap(s.threads, s.place, Core(s.core.current, g, s.core.gone), s.timers, s.last, s.log)
  {
  }

  lemma OnCoreIs(s: Snap, t: nat)
    ensures OnCore(s, t) == Snap(s.threads, s.place, Core(t, s.core.gcPtr, s.core.gone), s.timers, s.last, s.log)
  {
  }

  lemma JustTarget(held: set<nat>, target: nat, cur: nat)
    requires held == {target, cur} && target != cur
    ensures held - {cur} == {target}
  {
  }

  lemma NothingLeft(now: set<nat>, target: nat)
    requires now == {target}
    ensures now - {target} == {}
  {
  }

  lemma KeptPickedUp(s: Snap, held: set<nat>, t: nat, v: Snap, actors: set<nat>)
    requires s.threads.Keys == s.place.Keys && t in s.threads && s.threads[t].state == STOPPED
    requires v.threads == s.threads && v.place == s.place[t := InQueue(Gc)]
    ensures Kept(s, v, actors)
  {
  }

  lemma KeptCore(s: Snap, u: Snap, v: Snap, actors: set<nat>)
    requires Kept(s, u, actors) && v.threads == u.threads && v.place == u.place
    ensures Kept(s, v, actors)
  {
  }

  /** The collector, if it waits for its event; 0 else. */
  ghost function SleeperOf(place: Places, gcThread: nat, gcEvent: nat): nat {
    if Asleep(place, gcThread, gcEvent) then gcThread else 0
  }

  lemma SleeperIs(place: Places, gcThread: nat, gcEvent: nat)
    ensures SleeperOf(place, gcThread, gcEvent) == if Asleep(place, gcThread, gcEvent) then gcThread else 0
  {
  }

  lemma SleeperStays(before: Places, after: Places, gcThread: nat, gcEvent: nat)
    requires Signalled(before, after, gcThread, gcEvent)
    ensures SleeperOf(after, gcThread, gcEvent) in {0, SleeperOf(before, gcThread, gcEvent)}
  {
  }

  lemma SleeperElsewhere(place: Places, t: nat, gcThread: nat, gcEvent: nat)
    ensures SleeperOf(place[t := Nowhere][t := InQueue(Gc)], gcThread, gcEvent) in
      {0, SleeperOf(place, gcThread, gcEvent)}
  {
  }

  /** If the collector is woken, it slept before. */
  lemma SleeperBefore(s: Snap, u: Snap, woken: seq<nat>, gcThread: nat, gcEvent: nat)
    requires Kept(s, u, {}) && s.threads.Keys == u.place.Keys
    requires woken == [] || (woken == [gcThread] && Asleep(u.place, gcThread, gcEvent))
    ensures woken == [] || woken == [SleeperOf(s.place, gcThread, gcEvent)]
  {
  }

  /** A switch changes nothing but to wake the collector. */
  lemma HandedOver(s: Snap, u: Snap, v: Snap, woken: seq<nat>, target: nat, g: nat)
    requires Kept(s, u, {}) && WokeUp(u, v, woken, NOTIFY) && (woken == [] || woken == [g])
    requires forall t :: t in woken ==> t in u.threads && u.threads[t].state == WAITING
    requires target in u.threads && u.threads[target].state == RUNNING
    ensures Kept(s, OnCore(v, target), {g}) && Settled(s, OnCore(v, target)) && v.core == u.core
    ensures target in v.threads && v.threads[target] == u.threads[target] && v.threads.Keys == u.threads.Keys
    ensures forall j :: j in v.timers ==> j in u.timers
  {
    hide Kept, WokeUp, Settled;
    WokeOthers(u, v, woken, g);
    KeptOnward(s, u, v, {g}, {g}) by {
      KeptUp(s, u, {}, {g});
    }
    SettledAfter(s, u, v);
    KeptCore(s, v, OnCore(v, target), {g});
    SettledCore(s, v, OnCore(v, target));
    WokeCore(u, v, woken);
  }

  /** A switch does not touch a collector that waits for something else; one that
      waits for its event is ready afterwards exactly if a thread was handed over. */
  ghost predicate CollectorKept(s: Snap, u: Snap, left: nat, gcThread: nat, gcEvent: nat) {
    gcThread in s.threads && s.threads[gcThread].state == WAITING ==>
      && gcThread in u.threads && gcThread in s.place
      && (if Asleep(s.place, gcThread, gcEvent) && left != 0 then u.threads[gcThread].state == READY
          else u.threads[gcThread] == s.threads[gcThread])
  }

  lemma CollectorKeptIs(s: Snap, u: Snap, v: Snap, woken: seq<nat>, target: nat, left: nat, gcThread: nat, gcEvent: nat)
    requires Kept(s, u, {}) && WokeUp(u, v, woken, NOTIFY) && target in u.threads && u.threads[target].state == RUNNING
    requires woken == if left != 0 && target != gcThread && Asleep(u.place, gcThread, gcEvent) then [gcThread] else []
    ensures CollectorKept(s, OnCore(v, target), left, gcThread, gcEvent)
  {
  }

  lemma WokeCore(u: Snap, v: Snap, woken: seq<nat>)
    requires WokeUp(u, v, woken, NOTIFY)
    ensures v.core == u.core && v.threads.Keys == u.threads.Keys
    ensures forall j :: j in v.timers ==> j in u.timers
  {
  }

  lemma SettledAfter(s: Snap, u: Snap, v: Snap)
    requires Kept(s, u, {}) && forall t :: t in u.threads && u.threads[t].state != WAITING ==>
      t in v.threads && t in v.place && t in u.place && v.threads[t] == u.threads[t] && v.place[t] == u.place[t]
    ensures Settled(s, v)
  {
  }

  lemma SettledCore(s: Snap, u: Snap, v: Snap)
    requires Settled(s, u) && v.threads == u.threads && v.place == u.place
    ensures Settled(s, v)
  {
  }

  lemma EmptyPlus(a: nat, b: nat)
    ensures {} + NonNull(a) + NonNull(b) == NonNull(a) + NonNull(b)
  {
  }

  lemma KeptUp(s: Snap, u: Snap, actors: set<nat>, more: set<nat>)
    requires Kept(s, u, actors) && actors <= more
    ensures Kept(s, u, more)
  {
  }

  lemma KeptTrans(s: Snap, u: Snap, v: Snap, actors: set<nat>)
    requires Kept(s, u, actors) && Kept(u, v, actors)
    ensures Kept(s, v, actors)
  {
  }

  /** Two steps in turn; no thread is numbered 0. */
  lemma KeptJoined(s: Snap, u: Snap, v: Snap, a: set<nat>, b: set<nat>, all: set<nat>)
    requires Kept(s, u, a) && Kept(u, v, b) && 0 !in s.threads
    requires forall x :: x in a + b && x != 0 ==> x in all
    ensures Kept(s, v, all)
  {
  }

  lemma KeptCoreBefore(s: Snap, u: Snap, v: Snap, actors: set<nat>)
    requires Kept(u, v, actors) && s.threads == u.threads && s.place == u.place
    ensures Kept(s, v, actors)
  {
  }

  lemma KeptOnward(s: Snap, u: Snap, v: Snap, actors: set<nat>, more: set<nat>)
    requires Kept(s, u, more) && Kept(u, v, actors) && actors <= more
    ensures Kept(s, v, more)
  {
    KeptUp(u, v, actors, more);
    KeptTrans(s, u, v, more);
  }

  lemma WokeOthers(u: Snap, v: Snap, woken: seq<nat>, g: nat)
    requires WokeUp(u, v, woken, NOTIFY) && (woken == [] || woken == [g])
    requires forall t :: t in woken ==> t in u.threads && u.threads[t].state == WAITING
    ensures Kept(u, v, {g}) && v.threads.Keys == u.threads.Keys == v.place.Keys
    ensures forall t :: t in u.threads && u.threads[t].state != WAITING ==>
      t in v.threads && t in u.place && t in v.place && v.threads[t] == u.threads[t] && v.place[t] == u.place[t]
  {
  }

  lemma WokeActors(s: Snap, u: Snap, v: Snap, woken: seq<nat>, g: nat, actors: set<nat>)
    requires Kept(s, u, actors) && WokeUp(u, v, woken, NOTIFY) && (woken == [] || (woken == [g] && g in actors))
    requires forall t :: t in woken ==> t in u.threads && u.threads[t].state == WAITING
    ensures Kept(s, v, actors)
  {
    hide Kept, WokeUp;
    assert Kept(u, v, actors) by {
      if woken == [] {
        WokeNobody(u, v);
        KeptUp(u, v, {}, actors);
      } else {
        WokeOthers(u, v, woken, g);
        KeptUp(u, v, {g}, actors);
      }
    }
    KeptTrans(s, u, v, actors);
  }

  lemma WokeNobody(u: Snap, v: Snap)
    requires WokeUp(u, v, [], NOTIFY)
    ensures Kept(u, v, {})
  {
  }

  /** With a live thread about, the search finds one. */
  lemma FoundOne(s: Snap, skip: nat, t: nat)
    requires Inv(s, {}) && t in s.threads && t != skip && s.threads[t].state == READY
    requires forall x :: x in s.place && InReady(s.place[x]) ==> PriorityOf(s.place[x]) < PRIORITIES
    ensures !NoneAlive(s.threads, s.place, PRIORITIES, skip)
  {
    assert ReadyAt(s.place, t, PriorityOf(s.place[t]));
  }

  lemma InHands(a: nat, b: nat)
    ensures a != 0 ==> a in NonNull(a) + NonNull(b)
    ensures b != 0 ==> b in NonNull(a) + NonNull(b)
    ensures a != 0 && b == 0 ==> NonNull(a) + NonNull(b) == {a}
    ensures a != 0 && b != 0 && a != b ==> NonNull(a) + NonNull(b) - {b} == {a}
  {
  }

  lemma ThreeHands(a: nat, b: nat, t: nat)
    requires t != a && t != b
    ensures t !in NonNull(a) + NonNull(b)
  {
  }

  lemma KeptTwo(s: Snap, u: Snap, t: nat, o: nat, th: Thread, putBack: nat, q: Place)
    requires s.threads.Keys == s.place.Keys && t in s.threads && (putBack != 0 ==> putBack == o && putBack in s.threads)
    requires u.threads == s.threads[t := th]
    requires var p := s.place[t := if o != 0 then InQueue(Wait(o)) else Nowhere];
      u.place == if putBack != 0 then p[putBack := q] else p
    ensures Kept(s, u, {t, o}) && u.threads.Keys == s.threads.Keys
  {
  }

  /** The thread that ran waits for object o, or for its timer if o is 0, and a
      thread that could run, and was not the object, has the core. */
  ghost predicate Suspended(s: Snap, u: Snap, o: nat, us: nat, gcThread: nat, gcEvent: nat) {
    var cur, now := s.core.current, u.core.current;
    && now in s.threads && s.threads[now].state == READY && now != o && now != cur
    && now in u.threads && u.threads[now] == s.threads[now].(state := RUNNING) && u.core.gcPtr == 0
    && cur in s.threads && Parked(u, cur, s.threads[cur], o, us, s.core.gcPtr, gcThread, gcEvent)
    && Kept(s, u, {cur, now, o, SleeperOf(s.place, gcThread, gcEvent)})
  }

  /** Thread t waits for object o. Only the collector, when it goes to sleep, may be
      woken again at once, and is exactly if a thread was left behind by the last switch. */
  ghost predicate Parked(u: Snap, t: nat, before: Thread, o: nat, us: nat, left: nat, gcThread: nat, gcEvent: nat) {
    && t in u.threads
    && if t == gcThread && o == gcEvent && left != 0 then u.threads[t].state == READY
       else Waiting(u.threads[t], before, o, us)
  }

  /** The thread waits, with a ticket exactly if there is a time limit; else it is as before. */
  ghost predicate Waiting(th: Thread, before: Thread, o: nat, us: nat) {
    th == before.(state := WAITING, waitFor := o, ticket := th.ticket) && (th.ticket != 0 <==> us != 0)
  }

  lemma WaitingIs(before: Thread, o: nat, us: nat, k: nat)
    requires us != 0 ==> k != 0
    ensures Waiting(before.(state := WAITING, waitFor := o, ticket := if us != 0 then k else 0), before, o, us)
  {
  }

  lemma SuspendedIs(s: Snap, m: Snap, u: Snap, o: nat, us: nat, gcThread: nat, gcEvent: nat)
    requires u.core.current in s.threads && s.threads[u.core.current].state == READY && u.core.current != o
    requires Kept(s, m, {u.core.current, o, SleeperOf(s.place, gcThread, gcEvent)})
    requires SuspendedTo(m, u, o, us, gcThread, gcEvent) && m.core == s.core
    requires m.threads[u.core.current] == s.threads[u.core.current].(state := RUNNING)
    requires s.core.current in s.threads && m.threads[s.core.current] == s.threads[s.core.current]
    requires Signalled(s.place, m.place, gcThread, gcEvent) && 0 !in s.threads
    ensures Suspended(s, u, o, us, gcThread, gcEvent)
  {
    hide Signalled, SleeperOf, Kept, Parked;
    SleeperStays(s.place, m.place, gcThread, gcEvent);
    var g, h := SleeperOf(s.place, gcThread, gcEvent), SleeperOf(m.place, gcThread, gcEvent);
    KeptJoined(s, m, u, {u.core.current, o, g}, {s.core.current, u.core.current, o, h},
        {s.core.current, u.core.current, o, g});
  }

  ghost predicate SuspendedTo(m: Snap, u: Snap, o: nat, us: nat, gcThread: nat, gcEvent: nat) {
    var cur, now := m.core.current, u.core.current;
    && now in m.threads && now in u.threads && u.threads[now] == m.threads[now] && u.core.gcPtr == 0 && now != cur
    && cur in m.threads && Parked(u, cur, m.threads[cur], o, us, m.core.gcPtr, gcThread, gcEvent)
    && Kept(m, u, {cur, now, o, SleeperOf(m.place, gcThread, gcEvent)})
  }

  lemma SuspendedToIs(m: Snap, v: Snap, x: Snap, u: Snap, now: nat, o: nat, us: nat, gcThread: nat, gcEvent: nat)
    requires m.core.current != now && v.threads == m.threads && v.place == m.place && m.threads.Keys == m.place.Keys
    requires u.core.current == now && now in u.threads && now in m.threads && u.threads[now] == m.threads[now]
    requires m.core.current in m.threads && m.core.current in x.threads && u.core.gcPtr == 0
    requires Waiting(x.threads[m.core.current], m.threads[m.core.current], o, us)
    requires m.core.current in x.place && x.place[m.core.current] == if o != 0 then InQueue(Wait(o)) else Nowhere
    requires Kept(v, x, {m.core.current, o}) && Kept(x, u, {SleeperOf(x.place, gcThread, gcEvent)}) && gcEvent != 0
    requires WentToWait(m.place, x.place, m.core.current, o, gcThread, gcEvent) && 0 !in m.threads
    requires CollectorKept(x, u, m.core.gcPtr, gcThread, gcEvent)
    ensures SuspendedTo(m, u, o, us, gcThread, gcEvent)
  {
    hide CollectorKept, Parked, Kept, SleeperOf, Waiting;
    ParkedIs(x, u, m.core.current, m.threads[m.core.current], o, us, m.core.gcPtr, gcThread, gcEvent);
    SleeperIs(m.place, gcThread, gcEvent);
    SleeperIs(x.place, gcThread, gcEvent);
    KeptCoreBefore(m, v, x, {m.core.current, o});
    var g, h := SleeperOf(m.place, gcThread, gcEvent), SleeperOf(x.place, gcThread, gcEvent);
    KeptJoined(m, x, u, {m.core.current, o}, {h}, {m.core.current, now, o, g});
  }

  lemma ParkedIs(x: Snap, u: Snap, t: nat, before: Thread, o: nat, us: nat, left: nat, gcThread: nat, gcEvent: nat)
    requires t != 0 && t in x.threads && Waiting(x.threads[t], before, o, us) && gcEvent != 0
    requires t in x.place && x.place[t] == if o != 0 then InQueue(Wait(o)) else Nowhere
    requires Kept(x, u, {SleeperOf(x.place, gcThread, gcEvent)}) && CollectorKept(x, u, left, gcThread, gcEvent)
    ensures Parked(u, t, before, o, us, left, gcThread, gcEvent)
  {
  }

  /** A thread that did not wait, apart from t, is as it was. */
  ghost predicate OthersRun(before: Threads, after: Threads, t: nat) {
    forall x :: x in before && x != t && before[x].state != WAITING ==> x in after && after[x] == before[x]
  }

  lemma OthersRunFacts(before: Threads, after: Threads, t: nat)
    requires OthersRun(before, after, t)
    ensures forall x :: x in before && x != t && before[x].state != WAITING ==> x in after && after[x] == before[x]
  {
  }

  lemma OthersRunSelf(threads: Threads)
    ensures OthersRun(threads, threads, 0)
  {
  }

  lemma OthersRunWoke(u: Snap, v: Snap)
    requires forall t :: t in u.threads && u.threads[t].state != WAITING ==>
      t in v.threads && v.threads[t] == u.threads[t]
    ensures OthersRun(u.threads, v.threads, 0)
  {
  }

  lemma OthersRunIs(before: Threads, mid: Threads, after: Threads, t: nat)
    requires t != 0 ==> t in before && mid == before[t := before[t].(state := RUNNING)]
    requires t == 0 ==> mid == before
    requires OthersRun(mid, after, 0) && 0 !in before
    ensures OthersRun(before, after, t)
    ensures t != 0 ==> t in after && after[t] == mid[t]
  {
  }

  // -- giving way -----------------------------------------------------------

  /** Thread t was running and is ready now, in the queue of its priority. */
  ghost predicate Yielded(threads: Threads, place: Places, t: nat, before: Thread) {
    && t in threads && threads[t] == before.(state := READY)
    && t in place && place[t] == InQueue(Ready(before.priority))
  }

  /** Thread t could run, stood below level, and none that could run stood below it. */
  ghost predicate Overtakes(threads: Threads, place: Places, t: nat, level: nat) {
    && t in threads && threads[t].state == READY && t in place && InReady(place[t])
    && PriorityOf(place[t]) < level && NoneAlive(threads, place, PriorityOf(place[t]), 0)
  }

  /** Thread now took the core: it was ready, or it is the collector, woken before. */
  ghost predicate TookUp(before: Threads, after: Threads, now: nat) {
    && now in before && now in after
    && after[now] == if before[now].state == WAITING
      then before[now].(state := RUNNING, waitFor := 0, ticket := 0, reason := NOTIFY)
      else before[now].(state := RUNNING)
  }

  /** What the chance to preempt comes to. A running thread keeps the core exactly
      if no thread can run that is in a better queue or, with lower, in the same; a
      stopped one is left behind. */
  ghost predicate Preempted(s: Snap, u: Snap, lower: bool, g: nat) {
    var cur, now := s.core.current, u.core.current;
    && cur in s.threads && now in u.threads && u.threads[now].state == RUNNING
    && (s.threads[cur].state == RUNNING ==>
      (now == cur <==> NoneAlive(s.threads, s.place, s.threads[cur].priority + if lower then 1 else 0, 0)))
    && (s.threads[cur].state == RUNNING && now != cur ==>
      Overtakes(s.threads, s.place, now, s.threads[cur].priority + if lower then 1 else 0)
        && u.threads[now] == s.threads[now].(state := RUNNING) && Yielded(u.threads, u.place, cur, s.threads[cur]))
    && (s.threads[cur].state == RUNNING && now == cur ==> u.threads[cur] == s.threads[cur])
    && (s.threads[cur].state == STOPPED ==>
      now != cur && u.core.gcPtr == cur && cur in u.threads && u.threads[cur] == s.threads[cur]
        && TookUp(s.threads, u.threads, now))
    && Kept(s, u, {cur, now, g})
  }

  lemma TookUpIs(s: Snap, m: Snap, u: Snap, now: nat, gcThread: nat, gcEvent: nat)
    requires Inv(s, {}) && Inv(m, {}) && now in m.threads && m.threads[now].state == READY
      && s.threads.Keys == m.threads.Keys
    requires Kept(s, m, {0, SleeperOf(s.place, gcThread, gcEvent)}) && Roused(s, m, gcThread, gcEvent)
    requires now in u.threads && u.threads[now] == m.threads[now].(state := RUNNING)
    ensures TookUp(s.threads, u.threads, now)
  {
    hide TicketsOk, LogOk;
    NobodyIsNull(s, {});
    if now == gcThread && Asleep(s.place, gcThread, gcEvent) {
      assert s.threads[now].state == WAITING;
      assert !Asleep(m.place, gcThread, gcEvent);
    } else {
      assert m.threads[now] == s.threads[now];
    }
  }

  lemma PreemptedBy(s: Snap, m: Snap, u: Snap, t: nat, h: nat, g: nat, lower: bool)
    requires s.core.current in s.threads
      && (s.threads[s.core.current].state == RUNNING || s.threads[s.core.current].state == STOPPED)
    requires u.core.current == t && t in u.threads && 0 !in s.threads
    requires t in s.threads && u.threads[t] == s.threads[t].(state := RUNNING)
    requires s.threads[t].state == READY && t in s.place && InReady(s.place[t])
    requires PriorityOf(s.place[t]) < s.threads[s.core.current].priority + (if lower then 1 else 0)
      && NoneAlive(s.threads, s.place, PriorityOf(s.place[t]), 0)
    requires s.threads[s.core.current].state == RUNNING ==>
      Yielded(u.threads, u.place, s.core.current, s.threads[s.core.current])
    requires s.threads[s.core.current].state == STOPPED ==>
      u.core.gcPtr == s.core.current && s.core.current in u.threads
        && u.threads[s.core.current] == s.threads[s.core.current]
    requires Kept(s, m, {t, 0, g}) && Kept(m, u, {s.core.current, h}) && h in {0, g}
    ensures Preempted(s, u, lower, g)
  {
    hide Yielded, Kept;
    AliveMeans(s.threads, s.place, s.threads[s.core.current].priority + if lower then 1 else 0);
    KeptJoined(s, m, u, {t, 0, g}, {s.core.current, h}, {s.core.current, t, g});
  }

  lemma PreemptedDead(s: Snap, m: Snap, u: Snap, h: nat, g: nat, lower: bool)
    requires s.core.current in s.threads && s.threads[s.core.current].state == STOPPED && 0 !in s.threads
    requires u.core.current in u.threads && u.threads[u.core.current].state == RUNNING
    requires u.core.current != s.core.current && u.core.gcPtr == s.core.current
    requires s.core.current in u.threads && u.threads[s.core.current] == s.threads[s.core.current]
    requires TookUp(s.threads, u.threads, u.core.current)
    requires Kept(s, m, {0, 0, g}) && Kept(m, u, {s.core.current, u.core.current, h}) && h in {0, g}
    ensures Preempted(s, u, lower, g)
  {
    KeptJoined(s, m, u, {0, 0, g}, {s.core.current, u.core.current, h}, {s.core.current, u.core.current, g});
  }

  lemma PreemptedNot(s: Snap, u: Snap, g: nat, lower: bool)
    requires s.core.current in s.threads && s.threads[s.core.current].state == RUNNING
      && u.core.current == s.core.current && 0 !in s.threads
    requires u.core.current in u.threads && u.threads[u.core.current] == s.threads[s.core.current]
    requires NoneAlive(s.threads, s.place, s.threads[s.core.current].priority + if lower then 1 else 0, 0)
    requires Kept(s, u, {0, 0, g})
    ensures Preempted(s, u, lower, g)
  {
    assert Kept(s, u, {s.core.current, g}) by {
      KeptMoreNull(s, u, g, s.core.current);
    }
  }

  lemma KeptMoreNull(s: Snap, u: Snap, gcThread: nat, cur: nat)
    requires Kept(s, u, {0, 0, gcThread}) && 0 !in s.threads
    ensures Kept(s, u, {cur, gcThread})
  {
  }

  lemma LevelIs(s: Snap, t: nat)
    requires Inv(s, {}) && t in s.threads
    ensures s.threads[t].priority + 1 <= PRIORITIES
  {
  }

  lemma AliveMeans(threads: Threads, place: Places, level: nat)
    ensures forall t ::
      t in threads && t != 0 && threads[t].state == READY && t in place && InReady(place[t])
        && PriorityOf(place[t]) < level ==>
      !NoneAlive(threads, place, level, 0)
  {
    forall t | t in threads && t != 0 && threads[t].state == READY && t in place && InReady(place[t])
      && PriorityOf(place[t]) < level
      ensures !NoneAlive(threads, place, level, 0)
    {
      assert ReadyAt(place, t, PriorityOf(place[t]));
    }
  }

  lemma StillPromising(before: Threads, after: Threads)
    requires CanRun(before, 0) && forall t :: t in before && t != 0 && before[t].state != WAITING ==>
      t in after && after[t] == before[t]
    ensures CanRun(after, 0)
  {
    var t :| t in before && t != 0 && before[t].state == READY;
    assert t in after && after[t].state == READY;
  }

  lemma OneHand(a: nat, b: nat)
    ensures b == 0 && a != 0 ==> NonNull(a) + NonNull(b) == {a}
    ensures b == 0 && a == 0 ==> NonNull(a) + NonNull(b) == {}
  {
  }

  lemma BothHands(a: nat, b: nat)
    ensures {a} + {b} == {a, b}
  {
  }

  lemma KeptAll(s: Snap, u: Snap, t: nat)
    requires s.threads.Keys == s.place.Keys && u.threads.Keys == s.threads.Keys && u.place.Keys == s.place.Keys
    requires forall x :: x in s.threads && x != t ==> u.threads[x] == s.threads[x] && u.place[x] == s.place[x]
    ensures Kept(s, u, {t})
  {
  }

  lemma GaveWay(s: Snap, x: Snap, v: Snap, cur: nat, h: nat, g: nat)
    requires s.threads.Keys == s.place.Keys && x.threads.Keys == s.threads.Keys && x.place.Keys == s.place.Keys
      && cur in s.threads
    requires x.threads == s.threads[cur := x.threads[cur]] && x.place == s.place[cur := x.place[cur]]
    requires Kept(x, v, {h}) && Settled(x, v) && 0 !in s.threads && h in {0, g}
    ensures Kept(s, v, {cur, g})
    ensures x.threads[cur].state == READY ==>
      cur in v.threads && v.threads[cur] == x.threads[cur] && cur in v.place && v.place[cur] == x.place[cur]
    ensures x.threads[cur].state == STOPPED ==> cur in v.threads && v.threads[cur] == x.threads[cur]
    ensures x.threads[cur] == s.threads[cur].(state := READY) ==>
      x.place[cur] == InQueue(Ready(s.threads[cur].priority)) ==> Yielded(v.threads, v.place, cur, s.threads[cur])
  {
    hide Settled;
    KeptAll(s, x, cur);
    KeptJoined(s, x, v, {cur}, {h}, {cur, g});
    KeptReady(x, v, cur);
  }

  lemma KeptReady(s: Snap, u: Snap, t: nat)
    requires Settled(s, u) && t in s.threads
    ensures s.threads[t].state == READY ==>
      t in u.threads && u.threads[t] == s.threads[t] && t in u.place && u.place[t] == s.place[t]
    ensures s.threads[t].state == STOPPED ==> t in u.threads && u.threads[t] == s.threads[t]
  {
  }



  // -- timeouts, kills, births -----------------------------------------------

  /** The thread is ready with reason TIMEOUT, or takes the core at once. */
  ghost predicate TimedOut(s: Snap, u: Snap, t: nat, g: nat) {
    var cur := s.core.current;
    && t in s.threads && s.threads[t].state == WAITING && cur in s.threads && t in u.threads
    && (if s.threads[t].priority < s.threads[cur].priority then
      && u.core.current == t
      && u.threads[t] == s.threads[t].(state := RUNNING, reason := TIMEOUT, waitFor := 0, ticket := 0)
      && (s.threads[cur].state == RUNNING ==> Yielded(u.threads, u.place, cur, s.threads[cur]))
      && (s.threads[cur].state == STOPPED ==>
        u.core.gcPtr == cur && cur in u.threads && u.threads[cur] == s.threads[cur])
    else
      && u.core == s.core && cur in u.threads && u.threads[cur] == s.threads[cur]
      && u.threads[t] == s.threads[t].(state := READY, reason := TIMEOUT, waitFor := 0, ticket := 0)
      && t in u.place && u.place[t] == InQueue(Ready(s.threads[t].priority)))
    && Kept(s, u, {t, cur, g})
  }

  lemma TimerOwner(s: Snap, k: nat)
    requires Inv(s, {}) && k in s.timers
    ensures k != 0 && s.timers[k] in s.threads && s.threads[s.timers[k]].ticket == k
    ensures s.threads[s.timers[k]].state == WAITING && s.timers[k] != s.core.current
  {
  }

  lemma NobodyHeld(t: nat)
    ensures {} + {t} == {t} && {t} - {t} == {}
  {
  }

  /** Thread t runs now; the one that ran before is ready, unless it is stopped. */
  ghost predicate TookCore(s: Snap, u: Snap, t: nat, g: nat) {
    var cur := s.core.current;
    && cur in s.threads && t in s.threads && t in u.threads && u.core.current == t
    && u.threads[t] == s.threads[t].(state := RUNNING)
    && (s.threads[cur].state == RUNNING ==> Yielded(u.threads, u.place, cur, s.threads[cur]))
    && (s.threads[cur].state == STOPPED ==>
      u.core.gcPtr == cur && cur in u.threads && u.threads[cur] == s.threads[cur])
    && Kept(s, u, {t, cur, g})
  }

  lemma TookCoreIs(s: Snap, m: Snap, u: Snap, t: nat, g: nat)
    requires s.core.current in s.threads && t in s.threads && t != s.core.current && s.threads.Keys == s.place.Keys
    requires m.threads == s.threads[t := s.threads[t].(state := RUNNING)] && m.place == s.place
    requires u.core.current == t && t in u.threads && u.threads[t] == m.threads[t]
    requires s.threads[s.core.current].state == RUNNING ==>
      Yielded(u.threads, u.place, s.core.current, s.threads[s.core.current])
    requires s.threads[s.core.current].state == STOPPED ==>
      u.core.gcPtr == s.core.current && s.core.current in u.threads
        && u.threads[s.core.current] == s.threads[s.core.current]
    requires Kept(m, u, {s.core.current, g})
    ensures TookCore(s, u, t, g)
  {
    KeptAll(s, m, t);
    KeptUp(s, m, {t}, {t, s.core.current, g});
    KeptOnward(s, m, u, {s.core.current, g}, {t, s.core.current, g});
  }

  ghost function TimeoutReady(s: Snap, t: nat): Snap
    requires t in s.threads
  {
    s.(threads := s.threads[t := AfterReady(s.threads[t], TIMEOUT)], place := s.place[t := Nowhere],
        timers := s.timers - {s.threads[t].ticket})
  }

  lemma TimeoutTakesCore(s: Snap, u: Snap, t: nat, h: nat, g: nat)
    requires s.threads.Keys == s.place.Keys && s.core.current in s.threads && t in s.threads && t != s.core.current
      && s.threads[t].state == WAITING
    requires s.threads[t].priority < s.threads[s.core.current].priority
    requires TookCore(TimeoutReady(s, t), u, t, h) && h in {0, g} && 0 !in s.threads
    ensures TimedOut(s, u, t, g)
  {
    hide Yielded;
    var m := TimeoutReady(s, t);
    KeptAll(s, m, t);
    KeptJoined(s, m, u, {t}, {t, s.core.current, h}, {t, s.core.current, g});
  }

  lemma TimeoutWaits(s: Snap, u: Snap, t: nat, g: nat)
    requires s.threads.Keys == s.place.Keys && s.core.current in s.threads && t in s.threads && t != s.core.current
      && s.threads[t].state == WAITING
    requires s.threads[t].priority >= s.threads[s.core.current].priority
    requires u.threads == s.threads[t := AfterReady(s.threads[t], TIMEOUT)] && u.core == s.core
    requires u.place == s.place[t := Nowhere][t := InQueue(Ready(s.threads[t].priority))]
    ensures TimedOut(s, u, t, g)
  {
    hide Yielded;
    KeptAll(s, u, t);
    KeptUp(s, u, {t}, {t, s.core.current, g});
  }

  lemma TimeoutReadyIs(s: Snap, t: nat)
    requires t in s.threads && s.threads[t].state == WAITING
    ensures TimeoutReady(s, t) ==
      Snap(s.threads[t := AfterReady(s.threads[t], TIMEOUT)], s.place[t := Nowhere], s.core,
          s.timers - {s.threads[t].ticket}, s.last, s.log)
    ensures AfterReady(s.threads[t], TIMEOUT).state == READY
      && AfterReady(s.threads[t], TIMEOUT).priority == s.threads[t].priority
  {
  }

  lemma CriticalAlive(s: Snap, t: nat)
    requires Inv(s, {}) && t in s.threads && s.threads[t].critical
    ensures s.threads[t].state != STOPPED
  {
  }

  /** A change of the marks of a thread alone. */
  lemma MarkKeeps(s: Snap, t: nat, th: Thread)
    requires Inv(s, {}) && t in s.threads
    requires th == s.threads[t].(critical := th.critical, killed := th.killed) && (th.state == STOPPED ==> !th.critical)
    ensures t in s.place && Inv(Snap(s.threads[t := th], s.place, s.core, s.timers, s.last, s.log), {})
  {
    Change(s, {}, t, th, s.place[t], {});
    SamePlace(s, t);
  }

  lemma StopKeeps(s: Snap, t: nat)
    requires Inv(s, {}) && t in s.threads && s.threads[t].state != WAITING && !s.threads[t].critical
    ensures t in s.place
      && Inv(Snap(s.threads[t := s.threads[t].(state := STOPPED)], s.place, s.core, s.timers, s.last, s.log), {})
  {
    Change(s, {}, t, s.threads[t].(state := STOPPED), s.place[t], {});
    SamePlace(s, t);
  }

  ghost function StoppedWaiting(s: Snap, t: nat): (u: Snap)
    requires t in s.threads
    ensures u.threads == s.threads[t := s.threads[t].(state := STOPPED, waitFor := 0, ticket := 0)]
      && u.place == s.place[t := Nowhere]
    ensures u.core == s.core && u.timers == s.timers - {s.threads[t].ticket} && u.last == s.last && u.log == s.log
  {
    Snap(s.threads[t := s.threads[t].(state := STOPPED, waitFor := 0, ticket := 0)], s.place[t := Nowhere], s.core,
      s.timers - {s.threads[t].ticket}, s.last, s.log)
  }

  lemma StopWaitingKeeps(s: Snap, t: nat)
    requires Inv(s, {}) && t in s.threads && s.threads[t].state == WAITING && !s.threads[t].critical
    ensures Inv(StoppedWaiting(s, t), {t})
  {
    hide AllPlaced, TicketsOk, LogOk, Numbered;
    InvKeys(s, {});
    ReadyKeeps(s, {}, t, TIMEOUT);
    NobodyHeld(t);
    var th := s.threads[t];
    var u := Snap(s.threads[t := AfterReady(th, TIMEOUT)], s.place[t := Nowhere], s.core, s.timers - {th.ticket},
        s.last, s.log);
    HeldFree(u, {t}, t);
    HeldFacts(s.(threads := u.threads, place := u.place, timers := u.timers), {t}, t);
    Change(u, {t}, t, th.(state := STOPPED, waitFor := 0, ticket := 0), Nowhere, {t});
    assert u.place[t := Nowhere] == u.place;
    assert u.threads[t := th.(state := STOPPED, waitFor := 0, ticket := 0)] ==
      s.threads[t := th.(state := STOPPED, waitFor := 0, ticket := 0)];
  }

  lemma KilledWaiting(s: Snap, m: Snap, u: Snap, t: nat, woken: seq<nat>, h: nat, g: nat)
    requires s.threads.Keys == s.place.Keys && t in s.threads && t in m.threads
      && m.threads == s.threads[t := m.threads[t]] && m.threads[t].state == STOPPED
    requires m.place == s.place[t := Nowhere][t := InQueue(Gc)]
    requires WokeUp(m, u, woken, NOTIFY) && (woken == [] || woken == [h]) && h in {0, g} && 0 !in s.threads
    requires forall x :: x in woken ==> x in m.threads && m.threads[x].state == WAITING
    ensures Kept(s, u, {t, g}) && u.threads.Keys == s.threads.Keys && u.core == m.core
    ensures t in u.threads && u.threads[t] == m.threads[t] && t in u.place && u.place[t] == InQueue(Gc)
  {
    KeptAll(s, m, t);
    WokeOthers(m, u, woken, h);
    KeptJoined(s, m, u, {t}, {h}, {t, g});
  }

  lemma JustTwo(a: nat, b: nat)
    ensures {a, b} + {} == {a, b}
  {
  }

  lemma CanStillRun(before: Threads, after: Threads, t: nat)
    requires CanRun(before, 0) && t in before && before[t].state != READY && after.Keys == before.Keys
    requires forall x :: x in before && x != t ==> after[x] == before[x]
    ensures CanRun(after, 0)
  {
    var x :| x in before && x != 0 && before[x].state == READY;
    assert after[x].state == READY;
  }

  lemma KilledSelf(s: Snap, m: Snap, u: Snap, t: nat, g: nat)
    requires m.core.current == t && t in m.threads && m.threads[t].state == STOPPED && t != 0
    requires Preempted(m, u, true, g) && Kept(s, m, {t}) && Inv(u, {})
    ensures u.core.current != t && u.core.gcPtr == t && t in u.threads && u.threads[t].state == STOPPED
    ensures Kept(s, u, {t, g} + {u.core.current})
  {
    hide Kept;
    assert {t, u.core.current, g} == {t, g} + {u.core.current};
    KeptUp(s, m, {t}, {t, u.core.current, g});
    KeptTrans(s, m, u, {t, u.core.current, g});
  }

  lemma LeftBehind(s: Snap, m: Snap, u: Snap, t: nat, g: nat)
    requires m.core.current == t && t in m.threads && m.threads[t].state == STOPPED && Preempted(m, u, true, g)
    requires t in s.threads && m.threads == s.threads[t := m.threads[t]]
    ensures u.core.current != t && u.core.gcPtr == t && t in u.threads && u.threads[t] == m.threads[t]
    ensures TookUp(s.threads, u.threads, u.core.current)
  {
  }

  lemma HeadIs(l: seq<nat>)
    ensures At(l, 0) == if l == [] then 0 else l[0]
  {
  }

  lemma SpawnKeeps(s: Snap, t: nat, th: Thread)
    requires Inv(s, {}) && t !in s.threads && t != 0
    requires FieldsOk(th) && th.state == READY
    ensures Inv(Snap(s.threads[t := th], s.place[t := Nowhere], s.core, s.timers, s.last, s.log), {t})
  {
  }

  lemma OpenLayout(next: Links, queues: Queues, lists: Lists, place: Places, o: nat)
    requires LayoutOk(next, queues, lists, place) && Wait(o) !in queues
    ensures LayoutOk(next, queues[Wait(o) := Queue(0, 0)], lists[Wait(o) := []], place)
    ensures queues[Wait(o) := Queue(0, 0)].Keys == queues.Keys + {Wait(o)}
  {
    hide Chain;
    EmptyChain(next);
    var l := lists[Wait(o) := []];
    assert forall r, x :: Listed(l, r, x) <==> Listed(lists, r, x);
  }

  lemma QueuesMore(queues: set<QueueId>, threads: set<nat>, gcEvent: nat, q: QueueId)
    requires QueuesFor(queues, threads, gcEvent) && q.Wait?
    ensures QueuesFor(queues + {q}, threads, gcEvent)
  {
  }

  lemma QueuesStill(queues: set<QueueId>, threads: set<nat>, gcEvent: nat, t: nat)
    requires QueuesFor(queues, threads, gcEvent) && Wait(t) in queues
    ensures QueuesFor(queues, threads + {t}, gcEvent)
  {
  }

  lemma CollectorApart(lists: Lists, gcEvent: nat, gcThread: nat, o: nat)
    requires OnlyCollector(lists, gcEvent, gcThread)
    ensures OnlyCollector(lists[Wait(o) := []], gcEvent, gcThread)
  {
    var l := lists[Wait(o) := []];
    assert forall x :: Listed(l, Wait(gcEvent), x) ==> Listed(lists, Wait(gcEvent), x);
  }

  lemma SpawnLayout(next: Links, queues: Queues, lists: Lists, place: Places, t: nat)
    requires LayoutOk(next, queues, lists, place) && t !in place && t != 0
    ensures LayoutOk(next, queues, lists, place[t := Nowhere])
    ensures place[t := Nowhere].Keys == place.Keys + {t}
  {
    hide AllStored;
    assert forall q :: !Listed(lists, q, t);
  }

  // -- the search for the next thread --------------------------------------

  /** Thread t is taken from the head of queue q. */
  ghost predicate HeadTaken(before: Lists, after: Lists, q: QueueId, t: nat) {
    q in before && before[q] != [] && t == before[q][0] && after == before[q := before[q][1..]]
  }

  /** Thread t is taken out of queue q, wherever it stood. */
  ghost predicate Removed(before: Lists, after: Lists, q: QueueId, t: nat) {
    q in before && exists k: nat ::
      k < |before[q]| && before[q][k] == t && after == before[q := before[q][..k] + before[q][k + 1..]]
  }

  lemma RemovedAt(lists: Lists, q: QueueId, k: nat)
    requires q in lists && k < |lists[q]|
    ensures Removed(lists, lists[q := lists[q][..k] + lists[q][k + 1..]], q, lists[q][k])
    ensures k == 0 ==> lists[q][..k] + lists[q][k + 1..] == lists[q][1..]
  {
  }

  ghost predicate HeadCollected(before: Lists, after: Lists, q: QueueId, t: nat) {
    && q.Ready? && q in before && before[q] != [] && t == before[q][0] && Gc in before
    && after == before[q := before[q][1..]][Gc := before[Gc] + [t]]
  }

  lemma HeadIsCollected(before: Lists, mid: Lists, p: Place, t: nat)
    requires InReady(p) && HeadTaken(before, mid, p.q, t)
    ensures Gc in mid ==> HeadCollected(before, mid[Gc := mid[Gc] + [t]], p.q, t)
  {
  }

  // -- the order of the search ------------------------------------------------

  ghost predicate Precedes(s: seq<nat>, x: nat, t: nat) {
    exists i, j :: 0 <= i < j < |s| && s[i] == x && s[j] == t
  }

  /** The search meets thread x before thread t: it stands in a better ready queue,
      or in the same one and nearer to the head. */
  ghost predicate Ahead(place: Places, lists: Lists, x: nat, t: nat) {
    && x in place && t in place && InReady(place[x]) && InReady(place[t])
    && (PriorityOf(place[x]) < PriorityOf(place[t])
        || (place[x] == place[t] && place[t].q in lists && Precedes(lists[place[t].q], x, t)))
  }

  /** No thread that could run, apart from skip, stood ahead of thread t. */
  ghost predicate Foremost(threads: Threads, place: Places, lists: Lists, t: nat, skip: nat) {
    forall x :: x in threads && x != skip && Ahead(place, lists, x, t) ==> threads[x].state == STOPPED
  }

  ghost predicate StoppedAhead(threads: Threads, place: Places, lists: Lists, t: nat, skip: nat) {
    exists x :: x in threads && x != skip && threads[x].state == STOPPED && Ahead(place, lists, x, t)
  }

  ghost predicate Dead(threads: Threads, skip: nat, x: nat) {
    x == skip || (x in threads && threads[x].state == STOPPED)
  }

  /** Only dead threads left the front of a queue. */
  ghost predicate DrawnFrom(threads: Threads, before: seq<nat>, after: seq<nat>, skip: nat) {
    && |after| <= |before| && after == before[|before| - |after|..]
    && forall j :: 0 <= j < |before| - |after| ==> Dead(threads, skip, before[j])
  }

  ghost predicate Drawn(threads: Threads, l0: Lists, l: Lists, skip: nat) {
    forall q: QueueId :: q.Ready? && q in l0 ==> q in l && DrawnFrom(threads, l0[q], l[q], skip)
  }

  /** Threads that could run stand in the same order as before. */
  ghost predicate OrderKept(threads: Threads, skip: nat, l0: Lists, l: Lists) {
    forall q: QueueId, x: nat, t: nat ::
      q.Ready? && q in l0 && Alive(threads, skip, x) && Alive(threads, skip, t) && Precedes(l0[q], x, t) ==>
      q in l && Precedes(l[q], x, t)
  }

  ghost predicate Alive(threads: Threads, skip: nat, x: nat) {
    x in threads && x != skip && threads[x].state == READY
  }

  /** Ready queues grow at the tail only. */
  ghost predicate Extended(l0: Lists, l: Lists) {
    forall q: QueueId :: q.Ready? && q in l0 ==> q in l && l0[q] <= l[q]
  }

  /** The members of s with that priority, in their order. */
  ghost function Sifted(threads: Threads, s: seq<nat>, priority: nat): seq<nat> {
    if s == [] then []
    else
      var t := s[|s| - 1];
      Sifted(threads, s[..|s| - 1], priority) + if t in threads && threads[t].priority == priority then [t] else []
  }

  /** The threads of s have lined up in the ready queues of their priorities. */
  ghost predicate QueuedUp(l0: Lists, l: Lists, threads: Threads, s: seq<nat>) {
    l.Keys == l0.Keys && forall q: QueueId :: q in l0 ==>
      l[q] == if q.Ready? then l0[q] + Sifted(threads, s, q.priority) else l0[q]
  }

  lemma QueuedNone(lists: Lists, threads: Threads, s: seq<nat>)
    ensures QueuedUp(lists, lists, threads, s[..0])
  {
  }

  lemma QueuedOne(lists: Lists, threads: Threads, t: nat)
    requires t in threads && Ready(threads[t].priority) in lists
    ensures QueuedUp(lists,
        lists[Ready(threads[t].priority) := lists[Ready(threads[t].priority)] + [t]], threads, [t])
  {
    SiftedOne(threads, t);
  }

  lemma SiftedOne(threads: Threads, t: nat)
    requires t in threads
    ensures forall p: nat :: Sifted(threads, [t], p) == if p == threads[t].priority then [t] else []
  {
    assert [t][..0] == [];
    assert forall p: nat :: Sifted(threads, [t][..0], p) == [];
  }

  lemma QueuedMore(l0: Lists, l: Lists, m: Lists, s: Snap, u: Snap, pending: seq<nat>, k: nat, reason: Reason)
    requires k < |pending| && QueuedUp(l0, l, s.threads, pending[..k]) && WokeUp(s, u, pending[..k], reason)
    requires pending[k] in u.threads && QueuedUp(l, m, u.threads, [pending[k]])
    ensures QueuedUp(l0, m, s.threads, pending[..k + 1])
  {
    hide WokeUp, Sifted;
    SamePriority(s, u, pending[..k], reason, pending[k]);
    SiftedOne(u.threads, pending[k]);
    forall q: QueueId | q in l0
      ensures m[q] == if q.Ready? then l0[q] + Sifted(s.threads, pending[..k + 1], q.priority) else l0[q]
    {
      if q.Ready? {
        SiftedNext(s.threads, pending, k, q.priority);
      }
    }
  }

  /** One more thread of the chain is awake. */
  lemma WakingStep(l0: Lists, l: Lists, m: Lists, s: Snap, u: Snap, v: Snap, pending: seq<nat>, k: nat, o: nat,
      held: set<nat>, reason: Reason)
    requires k < |pending| && NoRepeats(pending) && Inv(u, Less(held, pending[..k]))
    requires QueuedUp(l0, l, s.threads, pending[..k]) && WokeUp(s, u, pending[..k], reason)
    requires AllWaiting(u.threads, pending[k..], o, Less(held, pending[..k]))
    requires pending[k] in u.threads && u.threads[pending[k]].state == WAITING
    requires QueuedUp(l, m, u.threads, [pending[k]])
    requires v.threads == u.threads[pending[k] := AfterReady(u.threads[pending[k]], reason)]
    requires v.place == u.place[pending[k] := InQueue(Ready(u.threads[pending[k]].priority))]
    requires v.timers == u.timers - {u.threads[pending[k]].ticket} && v.core == u.core && v.last == u.last
      && v.log == u.log
    ensures QueuedUp(l0, m, s.threads, pending[..k + 1]) && WokeUp(s, v, pending[..k + 1], reason)
    ensures AllWaiting(v.threads, pending[k + 1..], o, Less(held, pending[..k + 1]))
    ensures Less(held, pending[..k + 1]) == Less(held, pending[..k]) - {pending[k]}
  {
    hide *;
    QueuedMore(l0, l, m, s, u, pending, k, reason);
    WakingTickets(u, Less(held, pending[..k]));
    WakingView(s, u, v, pending, k, reason);
    WakingRest(u.threads, v.threads, pending, k, o, held);
  }

  lemma SamePriority(s: Snap, u: Snap, done: seq<nat>, reason: Reason, t: nat)
    requires WokeUp(s, u, done, reason) && t in u.threads
    ensures t in s.threads && u.threads[t].priority == s.threads[t].priority
  {
  }

  lemma SiftedNext(threads: Threads, s: seq<nat>, k: nat, p: nat)
    requires k < |s| && s[k] in threads
    ensures Sifted(threads, s[..k + 1], p) ==
      Sifted(threads, s[..k], p) + if p == threads[s[k]].priority then [s[k]] else []
  {
    assert s[..k + 1][..k] == s[..k];
  }

  lemma ExtendedQueued(l0: Lists, l: Lists, threads: Threads, s: seq<nat>)
    requires QueuedUp(l0, l, threads, s)
    ensures Extended(l0, l)
  {
  }

  lemma ExtendedSelf(lists: Lists)
    ensures Extended(lists, lists)
  {
  }


  lemma ExtendedWait(lists: Lists, o: nat, s: seq<nat>)
    ensures Extended(lists, lists[Wait(o) := s])
  {
  }

  lemma ExtendedMore(a: Lists, b: Lists, c: Lists)
    requires Extended(a, b) && Extended(b, c)
    ensures Extended(a, c)
  {
    forall q: QueueId | q.Ready? && q in a ensures q in c && a[q] <= c[q] {
      assert a[q] <= b[q] && b[q] <= c[q];
    }
  }

  lemma OrderExtended(threads: Threads, skip: nat, l0: Lists, l: Lists, m: Lists)
    requires OrderKept(threads, skip, l0, l) && Extended(l, m)
    ensures OrderKept(threads, skip, l0, m)
  {
    forall q: QueueId, x: nat, t: nat | q.Ready? && q in l0 && Alive(threads, skip, x) && Alive(threads, skip, t)
      && Precedes(l0[q], x, t)
      ensures q in m && Precedes(m[q], x, t)
    {
      var i, j :| 0 <= i < j < |l[q]| && l[q][i] == x && l[q][j] == t;
      assert m[q][i] == x && m[q][j] == t;
    }
  }

  lemma SearchOrder(threads: Threads, p0: Places, p: Places, l0: Lists, l: Lists, skip: nat, met: bool)
    requires Searching(threads, p0, p, l0, l, skip, met)
    ensures OrderKept(threads, skip, l0, l)
  {
    hide Drained, Moves;
    forall q: QueueId, x: nat, t: nat | q.Ready? && q in l0 && Alive(threads, skip, x) && Alive(threads, skip, t)
      && Precedes(l0[q], x, t)
      ensures q in l && Precedes(l[q], x, t)
    {
      assert DrawnFrom(threads, l0[q], l[q], skip);
      SuffixOrder(threads, l0[q], l[q], skip, x, t);
    }
  }

  lemma SuffixOrder(threads: Threads, b: seq<nat>, a: seq<nat>, skip: nat, x: nat, t: nat)
    requires DrawnFrom(threads, b, a, skip) && Alive(threads, skip, x) && Precedes(b, x, t)
    ensures Precedes(a, x, t)
  {
    var i, j :| 0 <= i < j < |b| && b[i] == x && b[j] == t;
    var k := |b| - |a|;
    forall n | 0 <= n < k ensures b[n] != x {
      assert Dead(threads, skip, b[n]);
    }
    assert a[i - k] == b[i] && a[j - k] == b[j];
  }

  /** A stopped thread left the core to thread now: to the first of those that could
      run, or to the collector, which was woken first, if none of those is better. */
  ghost predicate Escaped(threads: Threads, place: Places, lists: Lists, now: nat, sleeper: nat) {
    && now in threads
    && if now == sleeper then NoneAlive(threads, place, threads[now].priority, 0)
       else threads[now].state == READY && Foremost(threads, place, lists, now, 0)
  }

  /** It escaped after a first search that found nobody. */
  lemma EscapedIs(s: Snap, l0: Lists, m: Snap, l: Lists, now: nat, gcThread: nat, gcEvent: nat)
    requires Inv(s, {}) && Inv(m, {}) && s.threads.Keys == m.threads.Keys
    requires Kept(s, m, {0, SleeperOf(s.place, gcThread, gcEvent)}) && OrderKept(s.threads, 0, l0, l)
    requires now in m.threads && m.threads[now].state == READY && Foremost(m.threads, m.place, l, now, 0)
    requires Roused(s, m, gcThread, gcEvent)
    ensures Escaped(s.threads, s.place, l0, now, SleeperOf(s.place, gcThread, gcEvent))
  {
    hide TicketsOk, LogOk, Foremost, Precedes, Ahead, NoneAlive, OrderKept, Numbered, AllPlaced, Kept;
    var g := SleeperOf(s.place, gcThread, gcEvent);
    KeysAgree(s, m);
    if now == g {
      ReadyPlaces(m, now);
      CollectorIsBest(s, m, l, now);
    } else {
      SleeperPlace(s, gcThread, gcEvent);
      KeptBack(s, m, now, g);
      forall x | x in s.threads && x != 0 && Ahead(s.place, l0, x, now) ensures s.threads[x].state == STOPPED {
        StillAhead(s, l0, m, l, x, now, g);
        ForemostAt(m.threads, m.place, l, now, x);
      }
      ForemostIs(s.threads, s.place, l0, now);
    }
  }

  lemma EscapedAtOnce(s: Snap, lists: Lists, now: nat, gcThread: nat, gcEvent: nat)
    requires Inv(s, {}) && now in s.threads && s.threads[now].state == READY
      && Foremost(s.threads, s.place, lists, now, 0)
    ensures Escaped(s.threads, s.place, lists, now, SleeperOf(s.place, gcThread, gcEvent))
  {
    hide Foremost;
  }

  /** A thread on the core does not stand in the way of any other. */
  lemma EscapedStill(s: Snap, m: Snap, lists: Lists, cur: nat, now: nat, g: nat)
    requires Escaped(m.threads, m.place, lists, now, g) && now != cur && s.place == m.place
    requires cur in s.place && s.place[cur] == Nowhere && cur in s.threads
    requires m.threads.Keys == s.threads.Keys && forall x :: x in s.threads && x != cur ==> m.threads[x] == s.threads[x]
    ensures Escaped(s.threads, s.place, lists, now, g)
  {
    hide Precedes;
  }

  lemma RunningPlace(s: Snap, t: nat)
    requires Inv(s, {}) && t in s.threads && s.threads[t].state == RUNNING
    ensures t in s.place && s.place[t] == Nowhere && t != 0
  {
  }

  lemma KeysAgree(s: Snap, m: Snap)
    requires Inv(s, {}) && Inv(m, {})
    ensures s.threads.Keys == s.place.Keys && m.threads.Keys == m.place.Keys && 0 !in s.threads
  {
  }

  lemma SleeperPlace(s: Snap, gcThread: nat, gcEvent: nat)
    ensures var g := SleeperOf(s.place, gcThread, gcEvent); g != 0 ==> g in s.place && !InReady(s.place[g])
  {
  }

  lemma KeptBack(s: Snap, m: Snap, t: nat, g: nat)
    requires Inv(s, {}) && Inv(m, {}) && Kept(s, m, {0, g}) && s.threads.Keys == m.threads.Keys
    requires t in m.threads && t != g && m.threads[t].state == READY
    ensures t in s.threads && s.threads[t] == m.threads[t] && t in s.place && m.place[t] == s.place[t]
  {
  }

  lemma ForemostAt(threads: Threads, place: Places, lists: Lists, t: nat, x: nat)
    requires Foremost(threads, place, lists, t, 0) && x in threads && x != 0
    ensures Ahead(place, lists, x, t) ==> threads[x].state == STOPPED
  {
  }

  /** The collector, if it was woken, is ready in the queue of its priority. */
  ghost predicate Roused(s: Snap, u: Snap, gcThread: nat, gcEvent: nat) {
    Asleep(s.place, gcThread, gcEvent) && !Asleep(u.place, gcThread, gcEvent) ==>
      && gcThread in s.threads && gcThread in u.threads && gcThread in u.place
      && u.threads[gcThread] ==
         s.threads[gcThread].(state := READY, waitFor := 0, ticket := 0, reason := NOTIFY)
      && u.place[gcThread] == InQueue(Ready(s.threads[gcThread].priority))
  }

  lemma RousedNot(s: Snap, gcThread: nat, gcEvent: nat)
    ensures Roused(s, s, gcThread, gcEvent)
  {
  }

  lemma RousedIs(s: Snap, u: Snap, woken: seq<nat>, held: set<nat>, gcThread: nat, gcEvent: nat)
    requires Inv(s, held) && WokeUp(s, u, woken, NOTIFY)
    requires forall t :: t in woken ==> t in s.threads && s.threads[t].state == WAITING
    ensures Roused(s, u, gcThread, gcEvent)
  {
  }

  lemma RousedFrom(s: Snap, m: Snap, u: Snap, gcThread: nat, gcEvent: nat)
    requires Roused(m, u, gcThread, gcEvent) && m.threads == s.threads
    requires Asleep(m.place, gcThread, gcEvent) <==> Asleep(s.place, gcThread, gcEvent)
    ensures Roused(s, u, gcThread, gcEvent)
  {
  }

  lemma ReadyPlaces(s: Snap, t: nat)
    requires Inv(s, {}) && t in s.threads && s.threads[t].state == READY
    ensures t in s.place && InReady(s.place[t])
  {
  }

  lemma ForemostIs(threads: Threads, place: Places, lists: Lists, t: nat)
    requires forall x :: x in threads && x != 0 && Ahead(place, lists, x, t) ==> threads[x].state == STOPPED
    ensures Foremost(threads, place, lists, t, 0)
  {
  }

  /** Nothing that could run has a better priority than the collector that runs now. */
  lemma CollectorIsBest(s: Snap, m: Snap, l: Lists, g: nat)
    requires Inv(s, {}) && Inv(m, {}) && Kept(s, m, {0, g}) && s.threads.Keys == m.threads.Keys
    requires g in m.threads && g in m.place && m.place[g] == InQueue(Ready(s.threads[g].priority))
    requires g in s.place && !InReady(s.place[g]) && Foremost(m.threads, m.place, l, g, 0)
    ensures NoneAlive(s.threads, s.place, s.threads[g].priority, 0)
  {
    hide TicketsOk, LogOk, Precedes;
    forall t, p: nat | ReadyAt(s.place, t, p) && p < s.threads[g].priority && t != 0 && t in s.threads
      ensures s.threads[t].state == STOPPED
    {
      assert m.place[t] == s.place[t] ==> Ahead(m.place, l, t, g);
    }
  }

  lemma StillAhead(s: Snap, l0: Lists, m: Snap, l: Lists, x: nat, now: nat, g: nat)
    requires Inv(s, {}) && Inv(m, {}) && Kept(s, m, {0, g}) && s.threads.Keys == m.threads.Keys
    requires OrderKept(s.threads, 0, l0, l) && x in s.threads && x != 0 && Ahead(s.place, l0, x, now)
    requires now in s.threads && s.threads[now].state == READY && now in m.place && m.place[now] == s.place[now]
    requires now != 0 && g != 0 ==> g in s.place && !InReady(s.place[g])
    ensures m.threads[x] == s.threads[x] && (s.threads[x].state == READY || s.threads[x].state == STOPPED)
    ensures s.threads[x].state == READY ==> Ahead(m.place, l, x, now)
  {
    hide TicketsOk, LogOk, Precedes;
    assert s.threads[x].state == READY && now != 0 ==> Alive(s.threads, 0, x) && Alive(s.threads, 0, now);
  }

  /** A ready queue that lost a thread has no better one with threads left. */
  ghost predicate Drained(p0: Places, p: Places) {
    forall x, i: nat :: ReadyAt(p0, x, i) && !ReadyAt(p, x, i) ==> NoneReadyBelow(p, i)
  }

  /** skip was set aside, stopped threads went to the collector, all others stayed. */
  ghost predicate Moves(threads: Threads, p0: Places, p: Places, skip: nat) {
    && p.Keys == p0.Keys
    && forall x :: x in p0 && p[x] != p0[x] ==>
      (InReady(p0[x]) && if x == skip then p[x] == Nowhere else p[x] == InQueue(Gc) && Dead(threads, skip, x))
  }

  ghost predicate Searching(threads: Threads, p0: Places, p: Places, l0: Lists, l: Lists, skip: nat, met: bool) {
    && Drawn(threads, l0, l, skip) && Drained(p0, p) && Moves(threads, p0, p, skip)
    && (met <==> exists x :: InGc(p, x) && !InGc(p0, x))
  }

  lemma SearchStarts(threads: Threads, place: Places, lists: Lists, skip: nat)
    ensures Searching(threads, place, place, lists, lists, skip, false)
  {
  }

  lemma DrawnMore(threads: Threads, l0: Lists, l: Lists, m: Lists, skip: nat, q: QueueId, t: nat)
    requires Drawn(threads, l0, l, skip) && Dead(threads, skip, t) && q.Ready? && q in l0
    requires HeadTaken(l, m, q, t) || HeadCollected(l, m, q, t)
    ensures Drawn(threads, l0, m, skip)
  {
    hide Dead;
    var b, a := l0[q], l[q];
    assert DrawnFrom(threads, b, a, skip);
    assert b[|b| - |a|] == t;
    assert m[q] == b[|b| - |a| + 1..];
    forall r: QueueId | r.Ready? && r in l0 && r != q ensures r in m && DrawnFrom(threads, l0[r], m[r], skip) {
      assert m[r] == l[r];
    }
  }

  lemma DrainedMore(p0: Places, p: Places, p': Places, t: nat, i: nat)
    requires Drained(p0, p) && ReadyAt(p, t, i) && NoneReadyBelow(p, i)
    requires p' == p[t := Nowhere] || p' == p[t := Nowhere][t := InQueue(Gc)]
    ensures Drained(p0, p')
  {
    assert forall x, j: nat :: ReadyAt(p', x, j) <==> ReadyAt(p, x, j) && x != t;
    forall x, j: nat | ReadyAt(p0, x, j) && !ReadyAt(p', x, j) ensures NoneReadyBelow(p', j) {
      if ReadyAt(p, x, j) {
        assert x == t && j == i;
      } else {
        assert NoneReadyBelow(p, j);
      }
    }
  }

  lemma SearchAside(threads: Threads, p0: Places, p: Places, p': Places, l0: Lists, l: Lists, m: Lists, skip: nat,
      met: bool)
    requires Searching(threads, p0, p, l0, l, skip, met) && l.Keys == l0.Keys && skip in p && InReady(p[skip])
    requires p' == p[skip := Nowhere] && NoneReadyBelow(p, PriorityOf(p[skip])) && HeadTaken(l, m, p[skip].q, skip)
    ensures Searching(threads, p0, p', l0, m, skip, met)
  {
    hide NoneReadyBelow, Drawn, Drained, HeadTaken;
    assert ReadyAt(p, skip, PriorityOf(p[skip]));
    HeadTakenIn(l, m, p[skip].q, skip);
    DrawnMore(threads, l0, l, m, skip, p[skip].q, skip);
    DrainedMore(p0, p, p', skip, PriorityOf(p[skip]));
    assert forall x :: InGc(p', x) <==> InGc(p, x);
  }

  lemma HeadTakenIn(l: Lists, m: Lists, q: QueueId, t: nat)
    requires HeadTaken(l, m, q, t) || HeadCollected(l, m, q, t)
    ensures q in l
  {
  }

  lemma SearchStopped(threads: Threads, p0: Places, p: Places, p': Places, l0: Lists, l: Lists, m: Lists, skip: nat,
      met: bool, t: nat)
    requires Searching(threads, p0, p, l0, l, skip, met) && l.Keys == l0.Keys && t in p && InReady(p[t])
    requires t != skip && t in threads && threads[t].state == STOPPED
    requires p' == p[t := Nowhere][t := InQueue(Gc)] && NoneReadyBelow(p, PriorityOf(p[t]))
      && HeadCollected(l, m, p[t].q, t)
    ensures Searching(threads, p0, p', l0, m, skip, true)
  {
    hide NoneReadyBelow, Drawn, Drained, HeadCollected;
    assert ReadyAt(p, t, PriorityOf(p[t]));
    HeadTakenIn(l, m, p[t].q, t);
    DrawnMore(threads, l0, l, m, skip, p[t].q, t);
    DrainedMore(p0, p, p', t, PriorityOf(p[t]));
    assert InGc(p', t) && !InGc(p0, t);
  }

  /** When the search ends with thread t in a queue, exactly the stopped threads
      ahead of it were met, and no other. */
  lemma SearchEnds(threads: Threads, p0: Places, p: Places, l0: Lists, l: Lists, skip: nat, met: bool, t: nat)
    requires Searching(threads, p0, p, l0, l, skip, met) && InPlace(l0, p0) && InPlace(l, p)
    requires t in p && InReady(p[t]) && NoneReadyBelow(p, PriorityOf(p[t])) && p.Keys == threads.Keys
    requires p[t].q in l0 && p[t].q in l && l[p[t].q] != [] && l[p[t].q][0] == t && NoRepeats(l0[p[t].q])
    ensures Foremost(threads, p0, l0, t, skip)
    ensures met <==> StoppedAhead(threads, p0, l0, t, skip)
    ensures Gathered(threads, p0, l0, p, t, skip, 0)
  {
    hide Drained, InPlace, NoneReadyBelow, NoRepeats, DrawnFrom, Drawn;
    assert p0[t] == p[t];
    forall x | x in threads && x != skip && Ahead(p0, l0, x, t)
      ensures threads[x].state == STOPPED && InGc(p, x) && !InGc(p0, x)
    {
      AheadLeft(threads, p0, p, l0, l, skip, t, x);
    }
    forall x | InGc(p, x) && !InGc(p0, x)
      ensures x in threads && x != skip && threads[x].state == STOPPED && Ahead(p0, l0, x, t)
    {
      LeftAhead(threads, p0, p, l0, l, skip, t, x);
    }
  }

  ghost predicate AllDistinct(lists: Lists) {
    forall q :: q in lists ==> NoRepeats(lists[q])
  }

  /** All about the search so far. */
  ghost predicate Sought(s: Snap, l0: Lists, u: Snap, l: Lists, skip: nat, putBack: nat, met: bool) {
    && Picking(s, u, skip, putBack) && Searching(s.threads, s.place, u.place, l0, l, skip, met)
    && l.Keys == l0.Keys && InPlace(l0, s.place) && InPlace(l, u.place) && AllDistinct(l0)
  }

  lemma SoughtStarts(next: Links, queues: Queues, s: Snap, l0: Lists, skip: nat)
    requires LayoutOk(next, queues, l0, s.place) && s.threads.Keys == s.place.Keys
    requires forall t :: t in s.threads ==> t != 0
    ensures Sought(s, l0, s, l0, skip, 0, false)
  {
    hide Searching, Picking;
    PickingStarts(s, skip);
    SearchStarts(s.threads, s.place, l0, skip);
    assert forall q :: q in l0 ==> Stored(next, queues[q], l0[q]);
  }

  lemma SoughtFacts(s: Snap, l0: Lists, u: Snap, l: Lists, skip: nat, putBack: nat, met: bool, gcThread: nat,
      gcEvent: nat)
    requires Sought(s, l0, u, l, skip, putBack, met)
    ensures u.threads == s.threads && s.threads.Keys == s.place.Keys == u.place.Keys && Picking(s, u, skip, putBack)
    ensures putBack != 0 ==>
      putBack == skip && putBack in s.threads
        && (s.threads[putBack].state == READY || s.threads[putBack].state == STOPPED)
    ensures forall level: nat :: NoneReadyBelow(u.place, level) ==> NoneAlive(s.threads, s.place, level, skip)
    ensures Kept(s, u, {0, skip}) && OrderKept(s.threads, skip, l0, l)
    ensures !met ==> Signalled(s.place, u.place, gcThread, gcEvent)
    ensures Asleep(u.place, gcThread, gcEvent) <==> Asleep(s.place, gcThread, gcEvent)
  {
    hide Searching, Picking;
    PickingFacts(s, u, skip, putBack);
    SearchSignal(s.threads, s.place, u.place, l0, l, skip, met, gcThread, gcEvent);
    SearchOrder(s.threads, s.place, u.place, l0, l, skip, met);
  }

  lemma SoughtAside(s: Snap, l0: Lists, u: Snap, l: Lists, v: Snap, m: Lists, skip: nat, putBack: nat, held: set<nat>,
      met: bool)
    requires Sought(s, l0, u, l, skip, putBack, met) && skip !in held + NonNull(putBack) && skip in u.place && skip != 0
    requires v.threads == u.threads && v.place == u.place[skip := Nowhere] && InReady(u.place[skip])
    requires skip in u.threads && (u.threads[skip].state == READY || u.threads[skip].state == STOPPED)
    requires NoneReadyBelow(u.place, PriorityOf(u.place[skip])) && HeadTaken(l, m, u.place[skip].q, skip)
    requires m.Keys == l.Keys && InPlace(m, v.place)
    ensures Sought(s, l0, v, m, skip, skip, met) && held + NonNull(skip) == held + NonNull(putBack) + {skip}
  {
    hide Searching, Picking, NoneReadyBelow, AllDistinct;
    PickedAside(s, u, v, skip, putBack, held, skip);
    SearchAside(s.threads, s.place, u.place, v.place, l0, l, m, skip, met) by {
      PickingFacts(s, u, skip, putBack);
    }
  }

  lemma SoughtStopped(s: Snap, l0: Lists, u: Snap, l: Lists, v: Snap, m: Lists, skip: nat, putBack: nat, t: nat,
      met: bool)
    requires Sought(s, l0, u, l, skip, putBack, met) && t in u.place && t in u.threads && t != skip
      && u.threads[t].state == STOPPED
    requires v.threads == u.threads && v.place == u.place[t := Nowhere][t := InQueue(Gc)] && InReady(u.place[t])
    requires NoneReadyBelow(u.place, PriorityOf(u.place[t])) && HeadCollected(l, m, u.place[t].q, t)
    requires m.Keys == l.Keys && InPlace(m, v.place)
    ensures Sought(s, l0, v, m, skip, putBack, true)
  {
    hide Searching, Picking, NoneReadyBelow, AllDistinct;
    PickedStopped(s, u, v, skip, putBack, t);
    SearchStopped(s.threads, s.place, u.place, v.place, l0, l, m, skip, met, t) by {
      PickingFacts(s, u, skip, putBack);
    }
  }

  /** The search ends: thread t is taken. */
  lemma SoughtOne(s: Snap, l0: Lists, u: Snap, l: Lists, v: Snap, m: Lists, skip: nat, putBack: nat, held: set<nat>,
      t: nat, met: bool,
      gcThread: nat, gcEvent: nat)
    requires Sought(s, l0, u, l, skip, putBack, met) && t !in held + NonNull(putBack)
    requires t in u.place && t in u.threads && t != 0 && InReady(u.place[t])
    requires v.threads == u.threads[t := u.threads[t].(state := RUNNING)] && v.place == u.place[t := Nowhere]
    requires NoneReadyBelow(u.place, PriorityOf(u.place[t])) && HeadTaken(l, m, u.place[t].q, t)
    ensures t in s.place && s.place[t] == u.place[t] && Kept(s, v, {t, skip})
      && v.threads.Keys == v.place.Keys == s.threads.Keys
    ensures putBack != 0 ==> putBack != t && putBack in v.threads && v.threads[putBack] == s.threads[putBack]
    ensures held + NonNull(t) + NonNull(putBack) == held + NonNull(putBack) + {t}
    ensures Foremost(s.threads, s.place, l0, t, skip) && (met <==> StoppedAhead(s.threads, s.place, l0, t, skip))
    ensures Gathered(s.threads, s.place, l0, v.place, t, skip, 0)
    ensures !met ==> Signalled(s.place, v.place, gcThread, gcEvent)
    ensures Asleep(v.place, gcThread, gcEvent) <==> Asleep(s.place, gcThread, gcEvent)
  {
    hide Searching, Picking, InPlace, NoneReadyBelow, NoRepeats, Foremost, StoppedAhead, Signalled, Kept, Gathered;
    PickingFacts(s, u, skip, putBack);
    PickedOne(s, u, v, skip, putBack, held, t);
    SearchEnds(s.threads, s.place, u.place, l0, l, skip, met, t);
    SearchSignal(s.threads, s.place, u.place, l0, l, skip, met, gcThread, gcEvent);
    SignalledPut(u.place, t, Nowhere, gcThread, gcEvent);
    if !met {
      SignalledOnward(s.place, u.place, v.place, gcThread, gcEvent);
    }
    ReceivedPut(u.place, t, Nowhere);
    GatheredMore(s.threads, s.place, l0, u.place, t, skip, v.place, 0);
  }


  lemma AheadLeft(threads: Threads, p0: Places, p: Places, l0: Lists, l: Lists, skip: nat, t: nat, x: nat)
    requires Drawn(threads, l0, l, skip) && Moves(threads, p0, p, skip) && InPlace(l, p)
    requires t in p && InReady(p[t]) && NoneReadyBelow(p, PriorityOf(p[t])) && p0.Keys == threads.Keys && p0[t] == p[t]
    requires p[t].q in l0 && p[t].q in l && l[p[t].q] != [] && l[p[t].q][0] == t && NoRepeats(l0[p[t].q])
    requires x in threads && x != skip && Ahead(p0, l0, x, t)
    ensures threads[x].state == STOPPED && InGc(p, x) && !InGc(p0, x)
  {
    var q := p[t].q;
    if PriorityOf(p0[x]) < PriorityOf(p0[t]) {
      assert !ReadyAt(p, x, PriorityOf(p0[x]));
      assert ReadyAt(p0, x, PriorityOf(p0[x]));
    } else {
      assert DrawnFrom(threads, l0[q], l[q], skip);
      var i, j :| 0 <= i < j < |l0[q]| && l0[q][i] == x && l0[q][j] == t;
      FrontGone(l0[q], l[q], i, j);
      assert !Listed(l, q, x);
    }
  }

  lemma InSuffix(b: seq<nat>, a: seq<nat>, k: nat)
    requires |a| <= |b| && a == b[|b| - |a|..] && k < |b|
    ensures k >= |b| - |a| ==> b[k] in a
  {
    assert k >= |b| - |a| ==> b[k] == a[k - (|b| - |a|)];
  }

  lemma FrontGone(b: seq<nat>, a: seq<nat>, i: nat, j: nat)
    requires NoRepeats(b) && |a| <= |b| && a == b[|b| - |a|..] && a != [] && i < j < |b| && a[0] == b[j]
    ensures j == |b| - |a| && b[i] !in a
  {
    assert b[|b| - |a|] == b[j];
    forall k | 0 <= k < |a| ensures a[k] != b[i] {
      assert a[k] == b[|b| - |a| + k];
    }
  }

  lemma LeftAhead(threads: Threads, p0: Places, p: Places, l0: Lists, l: Lists, skip: nat, t: nat, x: nat)
    requires Drawn(threads, l0, l, skip) && Drained(p0, p) && Moves(threads, p0, p, skip) && InPlace(l0, p0)
      && InPlace(l, p)
    requires t in p && InReady(p[t]) && p0.Keys == threads.Keys && p0[t] == p[t]
    requires p[t].q in l0 && p[t].q in l && l[p[t].q] != [] && l[p[t].q][0] == t
    requires InGc(p, x) && !InGc(p0, x)
    ensures x in threads && x != skip && threads[x].state == STOPPED && Ahead(p0, l0, x, t)
  {
    var q, i := p[t].q, PriorityOf(p0[x]);
    assert ReadyAt(p0, x, i) && !ReadyAt(p, x, i);
    assert ReadyAt(p, t, PriorityOf(p[t]));
    if i == PriorityOf(p[t]) {
      var b, a := l0[q], l[q];
      assert DrawnFrom(threads, b, a, skip);
      assert Listed(l0, q, x);
      var k :| 0 <= k < |b| && b[k] == x;
      assert !Listed(l, q, x);
      InSuffix(b, a, k);
      assert b[|b| - |a|] == t;
    }
  }

  // -- the collector's wakeups ------------------------------------------------

  ghost predicate InGc(place: Places, t: nat) {
    t in place && place[t] == InQueue(Gc)
  }

  /** Something is left for the collector to do. */
  ghost predicate GcPending(place: Places) {
    exists t :: InGc(place, t)
  }

  /** Thread left, or nothing if it is 0, came to the collector, and nothing else. */
  ghost predicate Received(before: Places, after: Places, left: nat) {
    forall x :: InGc(after, x) <==> InGc(before, x) || (left != 0 && x == left)
  }

  /** Exactly the stopped threads ahead of thread t, and left, came to the collector. */
  ghost predicate Gathered(threads: Threads, p0: Places, l0: Lists, p: Places, t: nat, skip: nat, left: nat) {
    forall x :: InGc(p, x) <==>
      InGc(p0, x) || (left != 0 && x == left)
        || (x in threads && x != skip && threads[x].state == STOPPED && Ahead(p0, l0, x, t))
  }

  lemma ReceivedNone(place: Places)
    ensures Received(place, place, 0)
  {
  }

  lemma ReceivedOne(place: Places, t: nat)
    ensures t != 0 ==> Received(place, place[t := InQueue(Gc)], t)
  {
  }

  lemma ReceivedPut(place: Places, t: nat, p: Place)
    requires t in place && place[t] != InQueue(Gc) && p != InQueue(Gc)
    ensures Received(place, place[t := p], 0)
  {
  }

  lemma ReceivedOnward(a: Places, b: Places, c: Places, x: nat, y: nat)
    requires Received(a, b, x) && Received(b, c, y) && (x == 0 || y == 0)
    ensures Received(a, c, if x == 0 then y else x)
  {
  }

  /** The thread on the core goes back to a ready queue, or stays off all queues. */
  lemma ReceivedBack(s: Snap, after: Places, t: nat)
    requires t in s.place && t in after && s.place[t] == Nowhere && after == s.place[t := after[t]]
      && (after[t] == Nowhere || (after[t].InQueue? && after[t].q.Ready?))
    ensures Received(s.place, after, 0)
  {
  }

  lemma GatheredMore(threads: Threads, p0: Places, l0: Lists, p: Places, t: nat, skip: nat, p': Places, left: nat)
    requires Gathered(threads, p0, l0, p, t, skip, 0) && Received(p, p', left)
    ensures Gathered(threads, p0, l0, p', t, skip, left)
  {
  }

  lemma GatheredNone(threads: Threads, p0: Places, l0: Lists, p: Places, t: nat, skip: nat)
    requires Gathered(threads, p0, l0, p, t, skip, 0) && !StoppedAhead(threads, p0, l0, t, skip)
    ensures GcPending(p) <==> GcPending(p0)
  {
    if x :| InGc(p0, x) {
      assert InGc(p, x);
    }
    if x :| InGc(p, x) {
      assert InGc(p0, x);
    }
  }

  /** The collector waits for its event. */
  ghost predicate Asleep(place: Places, gcThread: nat, gcEvent: nat) {
    gcThread in place && place[gcThread] == InQueue(Wait(gcEvent))
  }

  /** To signal the collector takes the lock of its event, and then that of its thread if
      it sleeps. Whoever holds one of them spins. */
  ghost predicate LocksOut(place: Places, locked: nat, gcThread: nat, gcEvent: nat) {
    locked != 0 && (locked == gcEvent || (locked == gcThread && Asleep(place, gcThread, gcEvent)))
  }

  lemma LocksOutIs(place: Places, locked: nat, gcThread: nat, gcEvent: nat)
    ensures LocksOut(place, locked, gcThread, gcEvent) <==>
      locked != 0 && (locked == gcEvent || (locked == gcThread && Asleep(place, gcThread, gcEvent)))
  {
  }

  /** A wait for object o, whose lock is held, runs into that lock: the search meets
      a stopped thread before thread t, and so the collector is signalled. */
  ghost predicate SelfLocks(threads: Threads, place: Places, lists: Lists, t: nat, o: nat, gcThread: nat,
      gcEvent: nat) {
    t != gcThread && StoppedAhead(threads, place, lists, t, o) && LocksOut(place, o, gcThread, gcEvent)
  }

  lemma SelfLocksIs(threads: Threads, place: Places, lists: Lists, t: nat, o: nat, gcThread: nat, gcEvent: nat)
    ensures SelfLocks(threads, place, lists, t, o, gcThread, gcEvent) <==>
      t != gcThread && StoppedAhead(threads, place, lists, t, o) && LocksOut(place, o, gcThread, gcEvent)
    ensures !LocksOut(place, 0, gcThread, gcEvent)
  {
  }

  /** The collector does not sleep while there is something for it to do. */
  ghost predicate Attended(place: Places, gcThread: nat, gcEvent: nat) {
    GcPending(place) ==> !Asleep(place, gcThread, gcEvent)
  }

  /** As long as the collector sleeps nothing new comes to its queue. */
  ghost predicate Signalled(before: Places, after: Places, gcThread: nat, gcEvent: nat) {
    Asleep(after, gcThread, gcEvent) ==>
      Asleep(before, gcThread, gcEvent) && forall t :: InGc(after, t) ==> InGc(before, t)
  }

  lemma StaysAttended(before: Places, after: Places, gcThread: nat, gcEvent: nat)
    requires Attended(before, gcThread, gcEvent) && Signalled(before, after, gcThread, gcEvent)
    ensures Attended(after, gcThread, gcEvent)
  {
  }

  lemma SignalledOnward(a: Places, b: Places, c: Places, gcThread: nat, gcEvent: nat)
    requires Signalled(a, b, gcThread, gcEvent) && Signalled(b, c, gcThread, gcEvent)
    ensures Signalled(a, c, gcThread, gcEvent)
  {
  }

  lemma NothingNew(place: Places, gcThread: nat, gcEvent: nat)
    ensures Signalled(place, place, gcThread, gcEvent)
  {
  }

  /** A thread that comes to a ready queue, or is taken in hand, is no work for the collector. */
  lemma SignalledPut(place: Places, t: nat, p: Place, gcThread: nat, gcEvent: nat)
    requires t in place && (InReady(p) || p == Nowhere)
    ensures Signalled(place, place[t := p], gcThread, gcEvent)
  {
  }

  lemma SignalledBack(before: Places, after: Places, t: nat, gcThread: nat, gcEvent: nat)
    requires t in before && t in after && after == before[t := after[t]]
      && (after[t] == before[t] || after[t] == Nowhere || (after[t].InQueue? && after[t].q.Ready?))
    ensures Signalled(before, after, gcThread, gcEvent)
  {
  }

  lemma SignalledAwake(before: Places, after: Places, gcThread: nat, gcEvent: nat)
    requires !Asleep(after, gcThread, gcEvent)
    ensures Signalled(before, after, gcThread, gcEvent)
  {
  }

  lemma NullIsAwake(s: Snap, held: set<nat>, gcThread: nat, gcEvent: nat)
    requires Inv(s, held)
    ensures gcThread == 0 ==> !Asleep(s.place, gcThread, gcEvent)
  {
  }

  lemma AwakeInHand(place: Places, gcThread: nat, gcEvent: nat)
    requires gcThread in place && place[gcThread] == Nowhere
    ensures !Asleep(place, gcThread, gcEvent)
  {
  }

  lemma SignalledWoke(s: Snap, u: Snap, done: seq<nat>, reason: Reason, gcThread: nat, gcEvent: nat)
    requires WokeUp(s, u, done, reason)
    ensures Signalled(s.place, u.place, gcThread, gcEvent)
  {
  }

  /** Waking threads that wait takes nothing from the collector. */
  lemma NothingReceived(s: Snap, u: Snap, held: set<nat>, woken: seq<nat>, reason: Reason)
    requires Inv(s, held) && WokeUp(s, u, woken, reason)
    requires forall t :: t in woken ==> t in s.threads && s.threads[t].state == WAITING && t !in held
    ensures Received(s.place, u.place, 0)
  {
  }


  lemma SignalWakes(lists: Lists, s: Snap, u: Snap, woken: seq<nat>, gcThread: nat, gcEvent: nat)
    requires InPlace(lists, s.place) && Wait(gcEvent) in lists && OnlyCollector(lists, gcEvent, gcThread)
    requires woken == if lists[Wait(gcEvent)] == [] then [] else [lists[Wait(gcEvent)][0]]
    requires WokeUp(s, u, woken, NOTIFY)
    ensures !Asleep(u.place, gcThread, gcEvent)
    ensures woken != [] ==> woken == [gcThread]
  {
    if woken != [] {
      assert Listed(lists, Wait(gcEvent), woken[0]);
    }
    assert Asleep(s.place, gcThread, gcEvent) ==> Listed(lists, Wait(gcEvent), gcThread);
  }

  /** Thread t waits for object o now, and the collector's work is the same. */
  ghost predicate WentToWait(before: Places, after: Places, t: nat, o: nat, gcThread: nat, gcEvent: nat) {
    && (forall x :: InGc(after, x) <==> InGc(before, x))
    && (Asleep(after, gcThread, gcEvent) <==> Asleep(before, gcThread, gcEvent) || (t == gcThread && o == gcEvent))
  }

  lemma WentToWaitIs(before: Places, after: Places, t: nat, o: nat, gcThread: nat, gcEvent: nat)
    requires t in before && before[t] == Nowhere && gcEvent != 0
    requires after == before[t := if o != 0 then InQueue(Wait(o)) else Nowhere]
    ensures WentToWait(before, after, t, o, gcThread, gcEvent)
  {
  }

  lemma WentToWaitPut(before: Places, mid: Places, t: nat, o: nat, p: nat, q: QueueId, gcThread: nat, gcEvent: nat)
    requires WentToWait(before, mid, t, o, gcThread, gcEvent) && p in mid && mid[p] == Nowhere && q.Ready?
    ensures WentToWait(before, mid[p := InQueue(q)], t, o, gcThread, gcEvent)
  {
  }

  /** A wait from the search to the switch, where the thread left behind, if any, is handed over. */
  ghost predicate AfterWait(p1: Places, p3: Places, t: nat, o: nat, left: nat, gcThread: nat, gcEvent: nat) {
    && Received(p1, p3, left) && (!(t == gcThread && o == gcEvent) ==> Signalled(p1, p3, gcThread, gcEvent))
    && (t == gcThread && o == gcEvent ==> (Attended(p3, gcThread, gcEvent) <==> left != 0 || !GcPending(p1)))
  }

  lemma AfterWaitIs(p1: Places, p2: Places, p3: Places, t: nat, o: nat, left: nat, gcThread: nat, gcEvent: nat)
    requires WentToWait(p1, p2, t, o, gcThread, gcEvent) && Received(p2, p3, left)
    requires Signalled(p2, p3, gcThread, gcEvent) && if left == 0 then p3 == p2 else !Asleep(p3, gcThread, gcEvent)
    ensures AfterWait(p1, p3, t, o, left, gcThread, gcEvent)
  {
  }

  lemma WaitSignal(p0: Places, p1: Places, p3: Places, t: nat, o: nat, left: nat, gcThread: nat, gcEvent: nat)
    requires Signalled(p0, p1, gcThread, gcEvent) && AfterWait(p1, p3, t, o, left, gcThread, gcEvent)
    ensures Received(p1, p3, left)
    ensures !(t == gcThread && o == gcEvent) ==> Signalled(p0, p3, gcThread, gcEvent)
    ensures t == gcThread && o == gcEvent ==> (Attended(p3, gcThread, gcEvent) <==> left != 0 || !GcPending(p1))
  {
  }

  /** What the search leaves: if stopped threads were met, the signal is due. */
  lemma SearchSignal(threads: Threads, p0: Places, p: Places, l0: Lists, l: Lists, skip: nat, met: bool, gcThread: nat,
      gcEvent: nat)
    requires Searching(threads, p0, p, l0, l, skip, met)
    ensures !met ==> Signalled(p0, p, gcThread, gcEvent)
    ensures Asleep(p, gcThread, gcEvent) <==> Asleep(p0, gcThread, gcEvent)
  {
  }

  ghost function NonNull(t: nat): set<nat> {
    if t == 0 then {} else {t}
  }

  ghost predicate ReadyAt(place: Places, t: nat, p: nat) {
    t in place && place[t] == InQueue(Ready(p))
  }

  ghost predicate NoneReadyBelow(place: Places, level: nat) {
    forall t, p: nat :: ReadyAt(place, t, p) ==> p >= level
  }

  /** No thread that could run, apart from skip, was in a ready queue below level. */
  ghost predicate NoneAlive(threads: Threads, place: Places, level: nat, skip: nat) {
    forall t, p: nat :: ReadyAt(place, t, p) && p < level && t != skip && t in threads ==> threads[t].state == STOPPED
  }

  /** All threads that left the ready queues so far were stopped, or skip. */
  ghost predicate Swept(threads: Threads, before: Places, after: Places, skip: nat) {
    && (forall t, p: nat :: ReadyAt(before, t, p) && t in threads ==>
      ReadyAt(after, t, p) || t == skip || threads[t].state == STOPPED)
    && (forall t, p: nat :: ReadyAt(after, t, p) ==> ReadyAt(before, t, p))
  }

  ghost function ReadySet(place: Places): set<nat> {
    set t | t in place && InReady(place[t])
  }

  ghost function ReadyCount(place: Places): nat {
    |ReadySet(place)|
  }

  lemma NullIs(held: set<nat>)
    ensures held + NonNull(0) == held
  {
  }

  lemma NonNullIs(held: set<nat>, t: nat)
    requires t != 0
    ensures held + NonNull(t) == held + {t}
  {
  }

  lemma NonNullSwap(held: set<nat>, t: nat, p: nat)
    ensures held + NonNull(t) + NonNull(p) == held + NonNull(p) + NonNull(t)
    ensures t == 0 ==> held + NonNull(t) + NonNull(p) == held + NonNull(p)
  {
  }

  lemma InAndOut(held: set<nat>, t: nat)
    requires t !in held
    ensures held + {t} - {t} == held
  {
  }

  ghost predicate SameKeys(s: Snap, u: Snap) {
    s.threads.Keys == s.place.Keys && u.threads.Keys == u.place.Keys && s.threads.Keys == u.threads.Keys
  }

  lemma KeptSelf(s: Snap, actors: set<nat>)
    requires s.threads.Keys == s.place.Keys
    ensures Kept(s, s, actors)
  {
  }

  lemma KeptActor(s: Snap, u: Snap, actors: set<nat>, more: set<nat>, t: nat, v: Snap)
    requires SameKeys(s, u) && Kept(s, u, actors) && t in u.threads && t in more
    requires forall x :: x in actors && x != 0 ==> x in more
    requires 0 !in s.threads && v.threads.Keys == v.place.Keys == u.threads.Keys
    requires forall x :: x in u.threads && x != t ==> v.threads[x] == u.threads[x] && v.place[x] == u.place[x]
    ensures Kept(s, v, more)
  {
  }

  lemma KeptCollected(s: Snap, u: Snap, actors: set<nat>, t: nat, v: Snap)
    requires SameKeys(s, u) && Kept(s, u, actors) && t in u.threads && u.threads[t].state == STOPPED
    requires v.threads == u.threads && v.place == u.place[t := Nowhere][t := InQueue(Gc)]
    ensures v.threads.Keys == v.place.Keys && Kept(s, v, actors)
  {
  }

  /** What the search for the next thread keeps. */
  ghost predicate Picking(s: Snap, u: Snap, skip: nat, putBack: nat) {
    && u.threads == s.threads && SameKeys(s, u) && 0 !in s.threads
    && (putBack != 0 ==>
      putBack == skip && putBack in s.threads
        && (s.threads[putBack].state == READY || s.threads[putBack].state == STOPPED))
    && Swept(s.threads, s.place, u.place, skip) && Kept(s, u, {skip})
  }

  lemma PickingStarts(s: Snap, skip: nat)
    requires s.threads.Keys == s.place.Keys && forall t :: t in s.threads ==> t != 0
    ensures Picking(s, s, skip, 0)
  {
  }

  lemma PickingFacts(s: Snap, u: Snap, skip: nat, putBack: nat)
    requires Picking(s, u, skip, putBack)
    ensures u.threads == s.threads && s.threads.Keys == s.place.Keys == u.place.Keys
    ensures putBack != 0 ==>
      putBack == skip && putBack in s.threads
        && (s.threads[putBack].state == READY || s.threads[putBack].state == STOPPED)
    ensures forall level: nat :: NoneReadyBelow(u.place, level) ==> NoneAlive(s.threads, s.place, level, skip)
    ensures Kept(s, u, {0, skip})
  {
    SweptFacts(s, u, skip);
  }

  lemma PickedAside(s: Snap, u: Snap, v: Snap, skip: nat, putBack: nat, held: set<nat>, t: nat)
    requires Picking(s, u, skip, putBack) && t == skip && t !in held + NonNull(putBack) && t in u.place && t != 0
    requires v.threads == u.threads && v.place == u.place[t := Nowhere]
    requires u.threads[t].state == READY || u.threads[t].state == STOPPED
    ensures Picking(s, v, skip, t) && held + NonNull(t) == held + NonNull(putBack) + {t}
  {
    SweptMore(s.threads, s.place, u.place, v.place, skip, t);
    KeptActor(s, u, {skip}, {skip}, t, v);
  }

  lemma PickedOne(s: Snap, u: Snap, v: Snap, skip: nat, putBack: nat, held: set<nat>, t: nat)
    requires Picking(s, u, skip, putBack) && t !in held + NonNull(putBack) && t in u.place && t in u.threads && t != 0
      && InReady(u.place[t])
    requires v.threads == u.threads[t := u.threads[t].(state := RUNNING)] && v.place == u.place[t := Nowhere]
    ensures t in s.place && s.place[t] == u.place[t] && Kept(s, v, {t, skip})
      && v.threads.Keys == v.place.Keys == s.threads.Keys
    ensures held + NonNull(t) + NonNull(putBack) == held + NonNull(putBack) + {t}
  {
    StillReady(s.threads, s.place, u.place, skip, t);
    KeptActor(s, u, {skip}, {t, skip}, t, v);
  }

  lemma PickedStopped(s: Snap, u: Snap, v: Snap, skip: nat, putBack: nat, t: nat)
    requires Picking(s, u, skip, putBack) && t in u.place && t in u.threads && t != skip
      && u.threads[t].state == STOPPED
    requires v.threads == u.threads && v.place == u.place[t := Nowhere][t := InQueue(Gc)]
    ensures Picking(s, v, skip, putBack)
  {
    SweptMore(s.threads, s.place, u.place, v.place, skip, t);
    KeptCollected(s, u, {skip}, t, v);
  }

  lemma SweptFacts(s: Snap, u: Snap, skip: nat)
    requires Swept(s.threads, s.place, u.place, skip)
    ensures forall level: nat :: NoneReadyBelow(u.place, level) ==> NoneAlive(s.threads, s.place, level, skip)
  {
    forall level: nat | NoneReadyBelow(u.place, level) ensures NoneAlive(s.threads, s.place, level, skip) {
      SweptNone(s.threads, s.place, u.place, skip, level);
    }
  }

  lemma SweptNone(threads: Threads, before: Places, after: Places, skip: nat, level: nat)
    requires Swept(threads, before, after, skip)
    ensures NoneReadyBelow(after, level) ==> NoneAlive(threads, before, level, skip)
  {
  }

  lemma SweptMore(threads: Threads, before: Places, mid: Places, after: Places, skip: nat, t: nat)
    requires Swept(threads, before, mid, skip) && t in mid && t in threads && (t == skip || threads[t].state == STOPPED)
    requires after == mid[t := Nowhere] || after == mid[t := Nowhere][t := InQueue(Gc)]
    ensures Swept(threads, before, after, skip)
  {
    forall x, p: nat | ReadyAt(before, x, p) && x in threads
      ensures ReadyAt(after, x, p) || x == skip || threads[x].state == STOPPED
    {
      assert ReadyAt(mid, x, p) || x == skip || threads[x].state == STOPPED;
    }
    forall x, p: nat | ReadyAt(after, x, p) ensures ReadyAt(before, x, p) {
      assert ReadyAt(mid, x, p);
    }
  }

  lemma StillReady(threads: Threads, before: Places, after: Places, skip: nat, t: nat)
    requires Swept(threads, before, after, skip)
    requires t in after && InReady(after[t])
    ensures t in before && before[t] == after[t]
  {
    assert ReadyAt(after, t, after[t].q.priority);
  }

  lemma NoneBelowZero(place: Places)
    ensures NoneReadyBelow(place, 0)
  {
  }

  lemma NoneBelowNext(next: Links, queues: Queues, lists: Lists, place: Places, i: nat)
    requires LayoutOk(next, queues, lists, place) && NoneReadyBelow(place, i) && Ready(i) in lists
    ensures lists[Ready(i)] == [] ==> NoneReadyBelow(place, i + 1)
    ensures forall t :: t in place && place[t] == InQueue(Ready(i)) ==>
      InReady(place[t]) && NoneReadyBelow(place, PriorityOf(place[t])) && PriorityOf(place[t]) == i
  {
    forall t | ReadyAt(place, t, i) ensures lists[Ready(i)] != [] {
      assert Listed(lists, Ready(i), t);
    }
  }

  lemma TakenReady(s: Snap, held: set<nat>, t: nat)
    requires Inv(s, held) && t in s.place && InReady(s.place[t])
    ensures t in s.threads && t !in held && (s.threads[t].state == READY || s.threads[t].state == STOPPED)
    ensures Inv(s.(place := s.place[t := Nowhere]), held + {t})
  {
    Change(s, held, t, s.threads[t], Nowhere, held + {t});
    SameThread(s, t);
  }

  lemma CountLess(place: Places, t: nat)
    requires t in place && InReady(place[t])
    ensures ReadyCount(place[t := Nowhere]) < ReadyCount(place)
  {
    assert ReadySet(place[t := Nowhere]) == ReadySet(place) - {t};
    assert t in ReadySet(place);
  }

  lemma CountLessStill(before: Places, after: Places, t: nat)
    requires t in before && InReady(before[t]) && after == before[t := Nowhere][t := InQueue(Gc)]
    ensures ReadyCount(after) < ReadyCount(before)
  {
    assert ReadySet(after) == ReadySet(before) - {t};
    assert t in ReadySet(before);
  }

  lemma SameThread(s: Snap, t: nat)
    requires t in s.threads
    ensures s.threads[t := s.threads[t]] == s.threads
  {
  }

  /** A waiting thread that is not in hand is in the queue of its object, if any. */
  lemma WaitingFacts(s: Snap, held: set<nat>, t: nat)
    requires Inv(s, held) && t in s.threads && s.threads[t].state == WAITING
    ensures t in s.place && t != 0
    ensures t !in held && s.threads[t].waitFor != 0 ==> s.place[t] == InQueue(Wait(s.threads[t].waitFor))
    ensures t !in held && s.threads[t].waitFor == 0 ==> s.place[t] == Nowhere && s.place[t := Nowhere] == s.place
  {
  }

  lemma WaitQueueExists(next: Links, queues: Queues, lists: Lists, place: Places, t: nat, o: nat)
    requires LayoutOk(next, queues, lists, place) && t in place
    ensures place[t] == InQueue(Wait(o)) ==> Wait(o) in queues && Listed(lists, Wait(o), t)
  {
  }

  lemma OffQueueKeeps(s: Snap, held: set<nat>, t: nat)
    requires Inv(s, held) && t in s.threads && t !in held && s.threads[t].state == WAITING
    ensures Inv(With(s, t, s.threads[t], Nowhere), held + {t})
  {
    Change(s, held, t, s.threads[t], Nowhere, held + {t});
  }

  lemma YieldKeeps(s: Snap, held: set<nat>, t: nat)
    requires Inv(s, held) && t in held && (s.threads[t].state == READY || s.threads[t].state == RUNNING)
    ensures Inv(With(s, t, s.threads[t].(state := READY), Nowhere), held + {t})
    ensures s.place[t := Nowhere] == s.place
  {
    Change(s, held, t, s.threads[t].(state := READY), Nowhere, held + {t});
  }

  /** Thread t is ready, off its queue and its timer. */
  ghost function MadeReady(s: Snap, t: nat, reason: Reason): (u: Snap)
    requires t in s.threads
    ensures u.threads == s.threads[t := AfterReady(s.threads[t], reason)] && u.place == s.place[t := Nowhere]
    ensures u.core == s.core && u.last == s.last && u.log == s.log
    ensures u.timers == if s.threads[t].state == WAITING then s.timers - {s.threads[t].ticket} else s.timers
  {
    Snap(s.threads[t := AfterReady(s.threads[t], reason)], s.place[t := Nowhere], s.core,
      if s.threads[t].state == WAITING then s.timers - {s.threads[t].ticket} else s.timers, s.last, s.log)
  }

  lemma ReadyKeeps(s: Snap, held: set<nat>, t: nat, reason: Reason)
    requires Inv(s, held) && t in s.threads
    requires s.threads[t].state == READY || s.threads[t].state == RUNNING ==> t in held
    ensures t in s.place
    ensures s.threads[t].state != STOPPED ==> Inv(MadeReady(s, t, reason), held + {t})
    ensures t in held ==> s.place[t] == Nowhere && s.place[t := Nowhere] == s.place && held + {t} == held
    ensures AfterReady(s.threads[t], reason) == if s.threads[t].state == WAITING
      then s.threads[t].(state := READY, reason := reason, waitFor := 0, ticket := 0) else s.threads[t].(state := READY)
  {
    hide AllPlaced, TicketsOk, LogOk, Numbered;
    InvKeys(s, held);
    if t in held {
      HeldFacts(s, held, t);
      assert held + {t} == held && s.place[t := Nowhere] == s.place;
    }
    if s.threads[t].state == WAITING {
      SameThread(s, t);
      if t in held {
        WakeKeeps(s, held, t, reason);
      } else {
        OffQueueKeeps(s, held, t);
        WakeKeeps(With(s, t, s.threads[t], Nowhere), held + {t}, t, reason);
      }
    } else if s.threads[t].state != STOPPED {
      YieldKeeps(s, held, t);
    }
  }

  lemma NobodyIsNull(s: Snap, held: set<nat>)
    requires Inv(s, held)
    ensures forall t :: t in s.threads ==> t != 0
  {
  }

  lemma InvKeys(s: Snap, held: set<nat>)
    requires Inv(s, held)
    ensures s.threads.Keys == s.place.Keys && held <= s.threads.Keys
  {
  }

  lemma AfterReadyIs(th: Thread, reason: Reason)
    ensures AfterReady(th, reason) == if th.state == WAITING
      then th.(state := READY, reason := reason, waitFor := 0, ticket := 0) else th.(state := READY)
  {
  }

  /** Only the collector waits on its event. */
  ghost predicate OnlyCollector(lists: Lists, gcEvent: nat, gcThread: nat) {
    forall t :: Listed(lists, Wait(gcEvent), t) ==> t == gcThread
  }

  lemma CollectorPut(lists: Lists, gcEvent: nat, gcThread: nat, q: QueueId, t: nat)
    requires OnlyCollector(lists, gcEvent, gcThread) && q in lists && (q == Wait(gcEvent) ==> t == gcThread)
    ensures OnlyCollector(lists[q := lists[q] + [t]], gcEvent, gcThread)
  {
    var m := lists[q := lists[q] + [t]];
    forall x | Listed(m, Wait(gcEvent), x) ensures x == gcThread {
      assert Listed(lists, Wait(gcEvent), x) || (q == Wait(gcEvent) && x == t);
    }
  }

  lemma CollectorLess(lists: Lists, gcEvent: nat, gcThread: nat, q: QueueId, s: seq<nat>)
    requires OnlyCollector(lists, gcEvent, gcThread) && q in lists && forall x :: x in s ==> x in lists[q]
    ensures OnlyCollector(lists[q := s], gcEvent, gcThread)
  {
    var m := lists[q := s];
    forall x | Listed(m, Wait(gcEvent), x) ensures x == gcThread {
      assert Listed(lists, Wait(gcEvent), x);
    }
  }

  lemma PutLinksIs(next: Links, q: Queue, t: nat)
    ensures PutLinks(next, q, t) == if q.tail != 0 then next[t := 0][q.tail := t] else next[t := 0]
  {
  }

  lemma StoredIn(next: Links, queues: Queues, lists: Lists, place: Places, q: QueueId)
    requires LayoutOk(next, queues, lists, place) && q in queues
    ensures q in lists && (queues[q].head == 0 <==> lists[q] == []) && queues[q].head == At(lists[q], 0)
    ensures lists[q] != [] ==> queues[q].head == lists[q][0]
  {
    StoredFacts(next, queues[q], lists[q]);
  }

  lemma HeadPlace(lists: Lists, place: Places, q: QueueId)
    requires InPlace(lists, place) && q in lists && lists[q] != []
    ensures lists[q][0] in place && place[lists[q][0]] == InQueue(q) && lists[q][0] != 0
  {
    assert Listed(lists, q, lists[q][0]);
  }

  lemma ListedIs(lists: Lists, q: QueueId, t: nat)
    requires q in lists
    ensures Listed(lists, q, t) <==> exists i :: 0 <= i < |lists[q]| && lists[q][i] == t
  {
  }

  lemma MemberPlace(lists: Lists, place: Places, q: QueueId, t: nat)
    requires InPlace(lists, place) && Listed(lists, q, t)
    ensures t in place && place[t] == InQueue(q)
  {
  }

  lemma InList(next: Links, queues: Queues, lists: Lists, place: Places, q: QueueId, k: nat)
    requires LayoutOk(next, queues, lists, place) && q in lists && k <= |lists[q]|
    ensures At(lists[q], k) == 0 <==> k == |lists[q]|
    ensures k < |lists[q]| ==>
      At(lists[q], k) == lists[q][k] && lists[q][k] in next && next[lists[q][k]] == At(lists[q], k + 1)
    ensures At(lists[q], k + 1) != 0 ==> k + 1 < |lists[q]|
    ensures k + 1 < |lists[q]| ==> At(lists[q], k + 1) == lists[q][k + 1] && lists[q][k + 1] in next
  {
    var s := lists[q];
    assert k < |s| ==> LinkAt(next, s, k);
    assert k + 1 < |s| ==> LinkAt(next, s, k + 1);
  }

  lemma UnlinkedQueue(queues: Queues, q: QueueId)
    requires q in queues
    ensures queues[q := Queue(queues[q].head, queues[q].tail)] == queues
  {
  }
}
