/** The delta-queue timer (kernel/dev/timer.cpp).

    The queue stores for each ticket only the ticks that lie between it and the
    ticket before it. It is proved to behave like a list of absolute deadlines. */
module Timers {

  const HEARTBEAT_US := 1000

  /** A queue node: ticks after the previous node, and the period of a repeating ticket. */
  datatype Node = Node(ticket: nat, diff: nat, func: nat, interval: nat)

  /** The same ticket with its absolute deadline. */
  datatype Alarm = Alarm(ticket: nat, at: nat, func: nat, interval: nat)

  datatype Firing = Firing(ticket: nat, func: nat)

  /** The timer seen from outside: the time, the pending alarms, the tickets not
      cancelled, the last ticket given out, and all callbacks made so far. */
  datatype State = State(now: nat, alarms: seq<Alarm>, record: set<nat>, conductor: nat, log: seq<Firing>)

  function AlarmOf(n: Node, base: nat): Alarm {
    Alarm(n.ticket, base + n.diff, n.func, n.interval)
  }

  /** Prefix sums: the deadlines of a queue whose first difference counts from base. */
  function Alarms(q: seq<Node>, base: nat): (s: seq<Alarm>)
    ensures |s| == |q|
  {
    if q == [] then [] else [AlarmOf(q[0], base)] + Alarms(q[1..], base + q[0].diff)
  }

  // ---------------------------------------------------------------------
  // What the operations mean on absolute deadlines
  // ---------------------------------------------------------------------

  /** A new alarm goes before the first one that is not earlier. */
  function Insert(s: seq<Alarm>, x: Alarm): seq<Alarm> {
    if s == [] || x.at <= s[0].at then [x] + s else [s[0]] + Insert(s[1..], x)
  }

  /** The last of r is inserted first. */
  function InsertAll(s: seq<Alarm>, r: seq<Alarm>): seq<Alarm> {
    if r == [] then s else Insert(InsertAll(s, r[1..]), r[0])
  }

  function Later(a: nat, b: nat): nat {
    if a < b then b else a
  }

  /** A repeating alarm counts its next period from its own deadline, and is
      never armed for the past. */
  function Rearmed(a: Alarm, now: nat): Alarm {
    a.(at := Later(a.at + a.interval, now))
  }

  /** fired: alarms called, in order; again: repeating ones to be armed anew. */
  datatype Outcome = Outcome(rest: seq<Alarm>, record: set<nat>, fired: seq<Alarm>, again: seq<Alarm>)

  function Fire(s: seq<Alarm>, record: set<nat>, until: nat): Outcome {
    if s == [] || s[0].at > until then Outcome(s, record, [], [])
    else if s[0].ticket !in record then Fire(s[1..], record, until)
    else if s[0].interval == 0 then
      var o := Fire(s[1..], record - {s[0].ticket}, until);
      o.(fired := [s[0]] + o.fired)
    else
      var o := Fire(s[1..], record, until);
      o.(fired := [s[0]] + o.fired, again := [Rearmed(s[0], until)] + o.again)
  }

  function Calls(s: seq<Alarm>): (c: seq<Firing>)
    ensures |c| == |s| && forall i :: 0 <= i < |s| ==> c[i] == Firing(s[i].ticket, s[i].func)
  {
    if s == [] then [] else [Firing(s[0].ticket, s[0].func)] + Calls(s[1..])
  }

  function Ticks(us: nat): nat {
    if us / HEARTBEAT_US > 1 then us / HEARTBEAT_US else 1
  }

  function Waited(s: State, us: nat, func: nat, repeating: bool): State {
    var ticket := s.conductor + 1;
    var alarm := Alarm(ticket, s.now + Ticks(us), func, if repeating then Ticks(us) else 0);
    s.(alarms := Insert(s.alarms, alarm), record := s.record + {ticket}, conductor := ticket)
  }

  function Cancelled(s: State, ticket: nat): State {
    s.(record := s.record - {ticket})
  }

  function Stepped(s: State, n: nat): State {
    var o := Fire(s.alarms, s.record, s.now + n);
    s.(now := s.now + n, alarms := InsertAll(o.rest, o.again), record := o.record, log := s.log + Calls(o.fired))
  }

  // ---------------------------------------------------------------------
  // What every run keeps
  // ---------------------------------------------------------------------

  ghost predicate Sorted(s: seq<Alarm>) {
    forall i, j :: 0 <= i < j < |s| ==> s[i].at <= s[j].at
  }

  ghost predicate Distinct(s: seq<Alarm>) {
    forall i, j :: 0 <= i < j < |s| ==> s[i].ticket != s[j].ticket
  }

  ghost predicate Pending(s: seq<Alarm>, t: nat) {
    exists i :: 0 <= i < |s| && s[i].ticket == t
  }

  /** Deadlines in order, one alarm a ticket, every ticket that is not cancelled
      has its alarm, and ticket numbers were given out. */
  ghost predicate Good(s: State) {
    && Sorted(s.alarms) && Distinct(s.alarms)
    && (forall t :: t in s.record ==> Pending(s.alarms, t))
    && (forall i :: 0 <= i < |s.alarms| ==> s.alarms[i].ticket <= s.conductor)
  }

  lemma {:induction false} InsertMembers(s: seq<Alarm>, x: Alarm)
    ensures multiset(Insert(s, x)) == multiset(s) + multiset{x}
  {
    if s == [] || x.at <= s[0].at {
      assert multiset([x] + s) == multiset(s) + multiset{x};
    } else {
      InsertMembers(s[1..], x);
      assert s == [s[0]] + s[1..];
    }
  }

  lemma {:induction false} InsertIs(s: seq<Alarm>, x: Alarm)
    ensures multiset(Insert(s, x)) == multiset(s) + multiset{x}
    ensures Sorted(s) ==> Sorted(Insert(s, x))
  {
    hide Sorted;
    InsertMembers(s, x);
    if s == [] || x.at <= s[0].at {
      SortedFirst(x, s);
    } else {
      InsertIs(s[1..], x);
      var r := Insert(s[1..], x);
      SortedRest(s);
      forall a | a in r ensures Sorted(s) ==> s[0].at <= a.at {
        assert a in multiset(r);
        assert a == x || a in s[1..];
      }
      SortedFirst(s[0], r);
    }
  }

  lemma SortedFirst(a: Alarm, r: seq<Alarm>)
    ensures Sorted(r) && (forall b :: b in r ==> a.at <= b.at) ==> Sorted([a] + r)
    ensures Sorted(r) && r != [] && a.at <= r[0].at ==> Sorted([a] + r)
    ensures r == [] ==> Sorted([a] + r)
  {
    assert forall i :: 0 <= i < |r| ==> r[i] in r;
  }

  lemma SortedRest(s: seq<Alarm>)
    requires s != []
    ensures Sorted(s) ==> Sorted(s[1..]) && forall b :: b in s[1..] ==> s[0].at <= b.at
  {
  }

  lemma MembersPending(s: seq<Alarm>, r: seq<Alarm>, x: Alarm)
    requires multiset(r) == multiset(s) + multiset{x}
    ensures forall t :: Pending(r, t) <==> Pending(s, t) || t == x.ticket
    ensures |r| == |s| + 1
  {
    forall t ensures Pending(r, t) <==> Pending(s, t) || t == x.ticket {
      assert forall a :: a in r <==> a in multiset(r);
      assert forall a :: a in s <==> a in multiset(s);
      assert Pending(r, t) <==> exists a :: a in r && a.ticket == t;
      assert Pending(s, t) <==> exists a :: a in s && a.ticket == t;
    }
    assert |multiset(r)| == |r| && |multiset(s)| == |s|;
  }

  lemma {:induction false} InsertDistinct(s: seq<Alarm>, x: Alarm)
    requires Distinct(s) && !Pending(s, x.ticket)
    ensures Distinct(Insert(s, x))
  {
    if s == [] || x.at <= s[0].at {
    } else {
      assert forall i :: 0 <= i < |s[1..]| ==> s[1..][i] == s[i + 1];
      InsertDistinct(s[1..], x);
      InsertIs(s[1..], x);
      MembersPending(s[1..], Insert(s[1..], x), x);
      assert !Pending(s[1..], s[0].ticket);
      assert s[0].ticket != x.ticket;
      PrependDistinct(s[0], Insert(s[1..], x));
    }
  }

  lemma PrependDistinct(a: Alarm, r: seq<Alarm>)
    requires Distinct(r) && !Pending(r, a.ticket)
    ensures Distinct([a] + r)
  {
  }

  lemma WaitedIsGood(s: State, us: nat, func: nat, repeating: bool)
    requires Good(s)
    ensures Good(Waited(s, us, func, repeating))
  {
    hide Insert, Sorted, Distinct, Pending;
    var t := s.conductor + 1;
    var x := Alarm(t, s.now + Ticks(us), func, if repeating then Ticks(us) else 0);
    NotYetGiven(s.alarms, s.conductor, t);
    InsertIs(s.alarms, x);
    MembersPending(s.alarms, Insert(s.alarms, x), x);
    InsertDistinct(s.alarms, x);
    TicketsBounded(s.alarms, Insert(s.alarms, x), s.conductor, t);
  }

  lemma NotYetGiven(s: seq<Alarm>, n: nat, t: nat)
    requires n < t && forall i :: 0 <= i < |s| ==> s[i].ticket <= n
    ensures !Pending(s, t)
  {
  }

  lemma TicketsBounded(s: seq<Alarm>, r: seq<Alarm>, n: nat, m: nat)
    requires n <= m && forall i :: 0 <= i < |s| ==> s[i].ticket <= n
    requires forall t :: Pending(r, t) ==> Pending(s, t) || t == m
    ensures forall i :: 0 <= i < |r| ==> r[i].ticket <= m
  {
    forall i | 0 <= i < |r| ensures r[i].ticket <= m {
      assert Pending(r, r[i].ticket);
    }
  }

  // ---------------------------------------------------------------------
  // What a step fires
  // ---------------------------------------------------------------------

  /** Ticket t, due within the step, is called: exactly the pending alarms that
      are due and not cancelled, each once, in the order of their deadlines. */
  lemma {:induction false} FiresExactly(s: seq<Alarm>, record: set<nat>, until: nat)
    requires Sorted(s) && Distinct(s)
    ensures forall a :: a in Fire(s, record, until).fired <==> a in s && a.at <= until && a.ticket in record
    ensures Sorted(Fire(s, record, until).fired) && Distinct(Fire(s, record, until).fired)
  {
    if s != [] {
      assert forall i :: 0 <= i < |s[1..]| ==> s[1..][i] == s[i + 1];
      assert forall a :: a in s <==> a == s[0] || a in s[1..];
      if s[0].at <= until {
        if s[0].ticket !in record {
          FiresExactly(s[1..], record, until);
        } else if s[0].interval == 0 {
          FiresExactly(s[1..], record - {s[0].ticket}, until);
          FirstFires(s, Fire(s[1..], record - {s[0].ticket}, until).fired);
        } else {
          FiresExactly(s[1..], record, until);
          FirstFires(s, Fire(s[1..], record, until).fired);
        }
      }
    }
  }

  lemma FirstFires(s: seq<Alarm>, f: seq<Alarm>)
    requires s != [] && Sorted(s) && Distinct(s) && Sorted(f) && Distinct(f)
    requires forall a :: a in f ==> a in s[1..]
    ensures Sorted([s[0]] + f) && Distinct([s[0]] + f)
    ensures forall a :: a in s[1..] ==> a.ticket != s[0].ticket
  {
    assert forall a :: a in s[1..] ==> s[0].at <= a.at && a.ticket != s[0].ticket;
    assert forall i :: 0 <= i < |f| ==> f[i] in f;
    assert forall i :: 0 < i < |[s[0]] + f| ==> ([s[0]] + f)[i] == f[i - 1];
  }

  /** What is left pending: alarms not due, in their order. */
  lemma {:induction false} LeavesTheRest(s: seq<Alarm>, record: set<nat>, until: nat) returns (k: nat)
    requires Sorted(s)
    ensures k <= |s| && Fire(s, record, until).rest == s[k..]
    ensures forall i :: 0 <= i < |s| ==> (i < k <==> s[i].at <= until)
  {
    if s == [] || s[0].at > until {
      k := 0;
    } else {
      assert forall i :: 0 <= i < |s[1..]| ==> s[1..][i] == s[i + 1];
      var r := if s[0].ticket in record && s[0].interval == 0 then record - {s[0].ticket} else record;
      var m := LeavesTheRest(s[1..], r, until);
      k := m + 1;
      assert s[1..][m..] == s[k..];
      forall i | 0 <= i < |s| ensures i < k <==> s[i].at <= until {
        if i > 0 {
          assert s[i] == s[1..][i - 1];
        }
      }
    }
  }

  /** The record loses exactly the one-shot tickets that fired. */
  lemma {:induction false} RecordLoses(s: seq<Alarm>, record: set<nat>, until: nat)
    requires Sorted(s) && Distinct(s)
    ensures forall t :: t in Fire(s, record, until).record <==>
      t in record && !(exists a :: a in s && a.at <= until && a.interval == 0 && a.ticket == t)
  {
    if s != [] && s[0].at <= until {
      assert forall i :: 0 <= i < |s[1..]| ==> s[1..][i] == s[i + 1];
      assert forall a :: a in s <==> a == s[0] || a in s[1..];
      var r := if s[0].ticket in record && s[0].interval == 0 then record - {s[0].ticket} else record;
      RecordLoses(s[1..], r, until);
    } else if s != [] {
      assert forall a :: a in s ==> a.at > until;
    }
  }

  /** Exactly the repeating alarms that fired are armed again, once each. */
  lemma {:induction false} ArmsAgain(s: seq<Alarm>, record: set<nat>, until: nat)
    requires Sorted(s) && Distinct(s)
    ensures forall b :: b in Fire(s, record, until).again <==>
      exists a :: a in s && a.at <= until && a.ticket in record && a.interval > 0 && b == Rearmed(a, until)
    ensures Distinct(Fire(s, record, until).again)
  {
    if s != [] && s[0].at <= until {
      assert forall i :: 0 <= i < |s[1..]| ==> s[1..][i] == s[i + 1];
      assert forall a :: a in s <==> a == s[0] || a in s[1..];
      var r := if s[0].ticket in record && s[0].interval == 0 then record - {s[0].ticket} else record;
      ArmsAgain(s[1..], r, until);
      var o := Fire(s[1..], r, until);
      assert forall a :: a in s[1..] ==> a.ticket != s[0].ticket;
      if s[0].ticket in record && s[0].interval > 0 {
        forall i | 0 <= i < |o.again| ensures o.again[i].ticket != s[0].ticket {
          assert o.again[i] in o.again;
        }
        PrependDistinct(Rearmed(s[0], until), o.again);
      }
    } else if s != [] {
      assert forall a :: a in s ==> a.at > until;
    }
  }

  lemma {:induction false} InsertAllIs(s: seq<Alarm>, r: seq<Alarm>)
    requires Sorted(s) && Distinct(s) && Distinct(r) && forall i :: 0 <= i < |r| ==> !Pending(s, r[i].ticket)
    ensures Sorted(InsertAll(s, r)) && Distinct(InsertAll(s, r))
    ensures forall t :: Pending(InsertAll(s, r), t) <==> Pending(s, t) || Pending(r, t)
    ensures forall a :: a in InsertAll(s, r) <==> a in s || a in r
  {
    if r != [] {
      var q := r[1..];
      assert forall i :: 0 <= i < |q| ==> q[i] == r[i + 1];
      InsertAllIs(s, q);
      var m := InsertAll(s, q);
      assert !Pending(q, r[0].ticket);
      InsertIs(m, r[0]);
      InsertDistinct(m, r[0]);
      MembersPending(m, Insert(m, r[0]), r[0]);
      HeadPending(r);
      assert forall a :: a in Insert(m, r[0]) <==> a in multiset(Insert(m, r[0]));
      assert forall a :: a in m <==> a in multiset(m);
      assert forall a :: a in r <==> a == r[0] || a in q;
    }
  }

  lemma HeadPending(r: seq<Alarm>)
    requires r != []
    ensures forall t :: Pending(r, t) <==> t == r[0].ticket || Pending(r[1..], t)
  {
    forall t ensures Pending(r, t) <==> t == r[0].ticket || Pending(r[1..], t) {
      assert forall i :: 0 <= i < |r[1..]| ==> r[1..][i] == r[i + 1];
      if Pending(r, t) {
        var i :| 0 <= i < |r| && r[i].ticket == t;
        assert i > 0 ==> r[1..][i - 1].ticket == t;
      }
    }
  }

  /** After a step every alarm lies in the future or now, and is one of: an alarm
      that was not due, or a repeating one that fired. */
  lemma SteppedAlarms(s: State, n: nat)
    requires Good(s)
    ensures Sorted(Stepped(s, n).alarms) && Distinct(Stepped(s, n).alarms)
    ensures forall b :: b in Stepped(s, n).alarms <==>
      (b in s.alarms && b.at > s.now + n) ||
      exists a :: a in s.alarms && a.at <= s.now + n && a.ticket in s.record && a.interval > 0
        && b == a.(at := if s.now + n < a.at + a.interval then a.at + a.interval else s.now + n)
  {
    hide InsertAll, Fire, Pending, Sorted, Distinct;
    var until := s.now + n;
    var o := Fire(s.alarms, s.record, until);
    var k := LeavesTheRest(s.alarms, s.record, until);
    ArmsAgain(s.alarms, s.record, until);
    SuffixGood(s.alarms, k);
    AgainNotPending(s.alarms, s.record, until, k);
    InsertAllIs(o.rest, o.again);
    SuffixIs(s.alarms, until, k);
  }

  lemma SuffixIs(s: seq<Alarm>, until: nat, k: nat)
    requires k <= |s| && forall i :: 0 <= i < |s| ==> (i < k <==> s[i].at <= until)
    ensures forall b :: b in s[k..] <==> b in s && b.at > until
  {
    assert forall i :: 0 <= i < |s[k..]| ==> s[k..][i] == s[k + i];
    forall b | b in s && b.at > until ensures b in s[k..] {
      var j :| 0 <= j < |s| && s[j] == b;
      assert s[k..][j - k] == b;
    }
  }

  lemma AgainNotPending(s: seq<Alarm>, record: set<nat>, until: nat, k: nat)
    requires Sorted(s) && Distinct(s) && k <= |s| && forall i :: 0 <= i < |s| ==> (i < k <==> s[i].at <= until)
    ensures forall i :: 0 <= i < |Fire(s, record, until).again| ==>
      !Pending(s[k..], Fire(s, record, until).again[i].ticket)
  {
    hide Fire, Pending, Sorted, Distinct;
    var o := Fire(s, record, until);
    ArmsAgain(s, record, until);
    forall i | 0 <= i < |o.again| ensures !Pending(s[k..], o.again[i].ticket) {
      assert o.again[i] in o.again;
      var a :| a in s && a.at <= until && a.ticket in record && a.interval > 0 && o.again[i] == Rearmed(a, until);
      var j :| 0 <= j < |s| && s[j] == a;
      NotInSuffix(s, k, j);
    }
  }

  lemma SuffixGood(s: seq<Alarm>, k: nat)
    requires Sorted(s) && Distinct(s) && k <= |s|
    ensures Sorted(s[k..]) && Distinct(s[k..])
  {
  }

  lemma NotInSuffix(s: seq<Alarm>, k: nat, j: nat)
    requires Distinct(s) && j < k <= |s|
    ensures !Pending(s[k..], s[j].ticket)
  {
  }

  lemma PendingIs(s: seq<Alarm>, t: nat)
    ensures Pending(s, t) <==> exists a :: a in s && a.ticket == t
  {
  }

  lemma SteppedIsGood(s: State, n: nat)
    requires Good(s)
    ensures Good(Stepped(s, n))
  {
    hide InsertAll, Fire, Pending, Sorted, Distinct;
    var u := Stepped(s, n);
    var until := s.now + n;
    SteppedAlarms(s, n);
    RecordLoses(s.alarms, s.record, until);
    forall t | t in u.record ensures Pending(u.alarms, t) {
      assert Pending(s.alarms, t);
      PendingIs(s.alarms, t);
      PendingIs(u.alarms, t);
      var a :| a in s.alarms && a.ticket == t;
      if a.at <= until {
        assert Rearmed(a, until) in u.alarms;
      }
    }
    forall i | 0 <= i < |u.alarms| ensures u.alarms[i].ticket <= u.conductor {
      assert u.alarms[i] in u.alarms;
    }
  }

  lemma CancelledIsGood(s: State, t: nat)
    requires Good(s)
    ensures Good(Cancelled(s, t))
  {
  }

  ghost predicate Called(c: seq<Firing>, t: nat) {
    exists i :: 0 <= i < |c| && c[i].ticket == t
  }

  /** The callbacks one step of n ticks makes. */
  function StepCalls(s: State, n: nat): seq<Firing> {
    Calls(Fire(s.alarms, s.record, s.now + n).fired)
  }

  lemma StepCallsExactly(s: State, n: nat, t: nat)
    requires Good(s)
    ensures Called(StepCalls(s, n), t) <==>
      t in s.record && exists a :: a in s.alarms && a.ticket == t && a.at <= s.now + n
  {
    hide Fire, Sorted, Distinct, Pending, Called;
    var f := Fire(s.alarms, s.record, s.now + n).fired;
    FiresExactly(s.alarms, s.record, s.now + n);
    CalledIs(f, t);
  }

  lemma CalledIs(f: seq<Alarm>, t: nat)
    ensures Called(Calls(f), t) <==> exists a :: a in f && a.ticket == t
  {
    if Called(Calls(f), t) {
      var i :| 0 <= i < |Calls(f)| && Calls(f)[i].ticket == t;
      assert f[i] in f;
    }
    if a :| a in f && a.ticket == t {
      var i :| 0 <= i < |f| && f[i] == a;
      assert Calls(f)[i].ticket == t;
    }
  }

  /** cancel answers whether the ticket could still fire. */
  lemma CancelTellsWhetherItCouldFire(s: State, t: nat)
    requires Good(s)
    ensures t in s.record <==> exists n: nat :: Called(StepCalls(s, n), t)
  {
    hide Fire, Sorted, Distinct, StepCalls, Called;
    if t in s.record {
      var i :| 0 <= i < |s.alarms| && s.alarms[i].ticket == t;
      StepCallsExactly(s, s.alarms[i].at, t);
      assert s.alarms[i] in s.alarms;
      assert Called(StepCalls(s, s.alarms[i].at), t);
    }
    forall n: nat | Called(StepCalls(s, n), t) ensures t in s.record {
      StepCallsExactly(s, n, t);
    }
  }

  lemma CancelSilences(s: State, ticket: nat)
    requires Good(s)
    ensures forall n: nat, t: nat ::
      Called(StepCalls(Cancelled(s, ticket), n), t) <==> t != ticket && Called(StepCalls(s, n), t)
  {
    hide Good, StepCalls, Called;
    CancelledIsGood(s, ticket);
    forall n: nat, t: nat
      ensures Called(StepCalls(Cancelled(s, ticket), n), t) <==> t != ticket && Called(StepCalls(s, n), t)
    {
      StepCallsExactly(s, n, t);
      StepCallsExactly(Cancelled(s, ticket), n, t);
    }
  }

  // ---------------------------------------------------------------------
  // What a wait brings about
  // ---------------------------------------------------------------------

  /** The new ticket is called by exactly the steps of at least d ticks, before all
      that is due at the same time or later, and nothing else changes in any step. A
      one-shot is called once; a repeating one next d ticks after its first deadline. */
  ghost predicate Armed(s: State, u: State, ticket: nat, d: nat, func: nat, repeating: bool)
    requires d > 0
  {
    && (forall n: nat :: n < d ==> StepCalls(u, n) == StepCalls(s, n))
    && (forall n: nat :: n >= d ==>
      |StepCalls(s, d - 1)| <= |StepCalls(s, n)|
      && StepCalls(u, n) ==
         StepCalls(s, d - 1) + [Firing(ticket, func)] + StepCalls(s, n)[|StepCalls(s, d - 1)|..])
    && (forall n: nat :: Called(StepCalls(u, n), ticket) <==> n >= d)
    && (forall n: nat :: n >= d ==> (ticket in Stepped(u, n).record <==> repeating))
    && (forall n: nat, m: nat :: n >= d ==>
      (Called(StepCalls(Stepped(u, n), m), ticket) <==> repeating && n + m >= 2 * d))
  }

  lemma {:induction false} FireIgnores(s: seq<Alarm>, record: set<nat>, t: nat, until: nat)
    requires !Pending(s, t)
    ensures Fire(s, record + {t}, until).fired == Fire(s, record, until).fired
  {
    if s != [] && s[0].at <= until {
      assert forall i :: 0 <= i < |s[1..]| ==> s[1..][i] == s[i + 1];
      assert s[0].ticket != t;
      if s[0].ticket in record && s[0].interval == 0 {
        FireIgnores(s[1..], record - {s[0].ticket}, t, until);
        assert record + {t} - {s[0].ticket} == record - {s[0].ticket} + {t};
      } else {
        FireIgnores(s[1..], record, t, until);
      }
    }
  }

  /** A new alarm fires behind what is due before it, and in front of all else. */
  lemma {:induction false} InsertFires(s: seq<Alarm>, record: set<nat>, x: Alarm, until: nat)
    requires Sorted(s) && !Pending(s, x.ticket) && x.ticket !in record && x.at > 0
    ensures var f, p := Fire(s, record, until).fired, Fire(s, record, x.at - 1).fired;
      var g := Fire(Insert(s, x), record + {x.ticket}, until).fired;
      if x.at > until then g == f else |p| <= |f| && g == p + [x] + f[|p|..]
  {
    if s == [] || x.at <= s[0].at {
      FireIgnores(s, record, x.ticket, until);
      assert ([x] + s)[1..] == s;
      assert record + {x.ticket} - {x.ticket} == record;
    } else {
      assert forall i :: 0 <= i < |s[1..]| ==> s[1..][i] == s[i + 1];
      assert s[0].ticket != x.ticket;
      assert ([s[0]] + Insert(s[1..], x))[1..] == Insert(s[1..], x);
      var r := if s[0].ticket in record && s[0].interval == 0 then record - {s[0].ticket} else record;
      InsertFires(s[1..], r, x, until);
      assert record + {x.ticket} - {s[0].ticket} == record - {s[0].ticket} + {x.ticket};
    }
  }

  lemma WaitedCalls(s: State, x: Alarm, n: nat, d: nat)
    requires Good(s) && x.ticket > s.conductor && d > 0 && x.at == s.now + d
    ensures var u := s.(alarms := Insert(s.alarms, x), record := s.record + {x.ticket}, conductor := x.ticket);
      if n < d then StepCalls(u, n) == StepCalls(s, n)
      else
        && |StepCalls(s, d - 1)| <= |StepCalls(s, n)|
        && StepCalls(u, n) ==
           StepCalls(s, d - 1) + [Firing(x.ticket, x.func)] + StepCalls(s, n)[|StepCalls(s, d - 1)|..]
  {
    hide Insert, Fire, Good, Sorted, Pending, Calls;
    NewTicket(s, x.ticket);
    InsertFires(s.alarms, s.record, x, s.now + n);
    assert s.now + d - 1 == s.now + (d - 1);
    if n >= d {
      var f, p := Fire(s.alarms, s.record, s.now + n).fired, Fire(s.alarms, s.record, s.now + (d - 1)).fired;
      CallsAround(f, p, x);
    }
  }

  lemma NewTicket(s: State, t: nat)
    requires Good(s) && t > s.conductor
    ensures Sorted(s.alarms) && !Pending(s.alarms, t) && t !in s.record
  {
  }

  lemma CallsAround(f: seq<Alarm>, p: seq<Alarm>, x: Alarm)
    requires |p| <= |f|
    ensures |Calls(p)| <= |Calls(f)|
    ensures Calls(p + [x] + f[|p|..]) == Calls(p) + [Firing(x.ticket, x.func)] + Calls(f)[|Calls(p)|..]
  {
    hide Calls;
  }

  lemma WaitedMeans(s: State, us: nat, func: nat, repeating: bool, d: nat)
    requires Good(s) && d == if us / HEARTBEAT_US > 1 then us / HEARTBEAT_US else 1
    ensures Armed(s, Waited(s, us, func, repeating), s.conductor + 1, d, func, repeating)
  {
    hide Insert, Fire, StepCalls, Stepped, Called, Good;
    var x := Alarm(s.conductor + 1, s.now + d, func, if repeating then d else 0);
    var u := Waited(s, us, func, repeating);
    WaitedIsGood(s, us, func, repeating);
    InsertIs(s.alarms, x);
    assert x in u.alarms by {
      assert x in multiset(u.alarms);
    }
    forall n: nat
      ensures n < d ==> StepCalls(u, n) == StepCalls(s, n)
      ensures n >= d ==>
        |StepCalls(s, d - 1)| <= |StepCalls(s, n)|
        && StepCalls(u, n) ==
           StepCalls(s, d - 1) + [Firing(x.ticket, func)] + StepCalls(s, n)[|StepCalls(s, d - 1)|..]
      ensures Called(StepCalls(u, n), x.ticket) <==> n >= d
    {
      WaitedCalls(s, x, n, d);
      OnlyAlarm(u, x);
      StepCallsExactly(u, n, x.ticket);
    }
    forall n: nat, m: nat | n >= d
      ensures x.ticket in Stepped(u, n).record <==> repeating
      ensures Called(StepCalls(Stepped(u, n), m), x.ticket) <==> repeating && n + m >= 2 * d
    {
      AfterFirst(u, x, n, m, d);
    }
    forall n: nat | n >= d ensures x.ticket in Stepped(u, n).record <==> repeating {
      AfterFirst(u, x, n, 0, d);
    }
  }

  lemma OnlyAlarm(u: State, x: Alarm)
    requires Good(u) && x in u.alarms
    ensures forall a :: a in u.alarms && a.ticket == x.ticket ==> a == x
  {
  }

  /** The step that calls a ticket for the first time, and what comes of it. */
  lemma AfterFirst(u: State, x: Alarm, n: nat, m: nat, d: nat)
    requires Good(u) && x in u.alarms && x.ticket in u.record && x.at == u.now + d && n >= d > 0
    requires x.interval == 0 || x.interval == d
    ensures x.ticket in Stepped(u, n).record <==> x.interval > 0
    ensures Called(StepCalls(Stepped(u, n), m), x.ticket) <==> x.interval > 0 && n + m >= 2 * d
  {
    hide StepCalls, Called, Good, Stepped;
    StillRecorded(u, x, n);
    SteppedIsGood(u, n);
    StepCallsExactly(Stepped(u, n), m, x.ticket);
    if x.interval > 0 {
      ArmedAgain(u, x, n);
      OnlyAlarm(Stepped(u, n), x.(at := if u.now + n < x.at + x.interval then x.at + x.interval else u.now + n));
    }
  }

  lemma StillRecorded(u: State, x: Alarm, n: nat)
    requires Good(u) && x in u.alarms && x.ticket in u.record && x.at <= u.now + n
    ensures x.ticket in Stepped(u, n).record <==> x.interval > 0
    ensures Stepped(u, n).now == u.now + n
  {
    hide Fire, InsertAll, Calls;
    OnlyAlarm(u, x);
    RecordLoses(u.alarms, u.record, u.now + n);
  }

  lemma ArmedAgain(u: State, x: Alarm, n: nat)
    requires Good(u) && x in u.alarms && x.ticket in u.record && x.at <= u.now + n && x.interval > 0
    ensures x.(at := if u.now + n < x.at + x.interval then x.at + x.interval else u.now + n) in Stepped(u, n).alarms
  {
    hide Stepped, Good;
    SteppedAlarms(u, n);
  }

  // ---------------------------------------------------------------------
  // Alarms of the same time
  // ---------------------------------------------------------------------

  ghost predicate Before(s: seq<Alarm>, a: Alarm, b: Alarm) {
    exists i, j :: 0 <= i < j < |s| && s[i] == a && s[j] == b
  }

  lemma BeforeRest(a: Alarm, r: seq<Alarm>, x: Alarm, y: Alarm)
    ensures Before(r, x, y) ==> Before([a] + r, x, y)
    ensures y in r ==> Before([a] + r, a, y)
  {
    var s := [a] + r;
    if Before(r, x, y) {
      var i, j :| 0 <= i < j < |r| && r[i] == x && r[j] == y;
      assert s[i + 1] == x && s[j + 1] == y;
    }
    if y in r {
      var j :| 0 <= j < |r| && r[j] == y;
      assert s[0] == a && s[j + 1] == y;
    }
  }

  /** A new alarm goes before all that are not earlier. */
  lemma {:induction false} InsertBefore(s: seq<Alarm>, x: Alarm, b: Alarm)
    requires Sorted(s) && b in s && x.at <= b.at
    ensures Before(Insert(s, x), x, b)
  {
    if s == [] || x.at <= s[0].at {
      BeforeRest(x, s, x, b);
    } else {
      SortedRest(s);
      assert b in s[1..];
      InsertBefore(s[1..], x, b);
      BeforeRest(s[0], Insert(s[1..], x), x, b);
    }
  }

  lemma {:induction false} InsertKeepsOrder(s: seq<Alarm>, x: Alarm, a: Alarm, b: Alarm)
    requires Before(s, a, b)
    ensures Before(Insert(s, x), a, b)
  {
    if s == [] || x.at <= s[0].at {
      BeforeRest(x, s, a, b);
    } else {
      var i, j :| 0 <= i < j < |s| && s[i] == a && s[j] == b;
      var r := Insert(s[1..], x);
      InsertMembers(s[1..], x);
      assert s[1..][j - 1] == b;
      assert b in multiset(r);
      if i > 0 {
        assert s[1..][i - 1] == a;
        InsertKeepsOrder(s[1..], x, a, b);
      }
      BeforeRest(s[0], r, a, b);
    }
  }

  /** Alarms that are armed again go before all others of the same time, and of two
      of them the one that was called first goes first. */
  lemma {:induction false} ArmedAgainFirst(s: seq<Alarm>, r: seq<Alarm>, i: nat, b: Alarm)
    requires Sorted(s) && i < |r| && r[i].at <= b.at && (b in s || b in r[i + 1..])
    ensures Before(InsertAll(s, r), r[i], b)
  {
    var m := InsertAll(s, r[1..]);
    AllSorted(s, r[1..]);
    if i == 0 {
      InsertBefore(m, r[0], b);
    } else {
      assert r[1..][i..] == r[i + 1..];
      ArmedAgainFirst(s, r[1..], i - 1, b);
      InsertKeepsOrder(m, r[0], r[i], b);
    }
  }

  lemma {:induction false} AllSorted(s: seq<Alarm>, r: seq<Alarm>)
    requires Sorted(s)
    ensures Sorted(InsertAll(s, r)) && forall a :: a in InsertAll(s, r) <==> a in s || a in r
  {
    if r != [] {
      AllSorted(s, r[1..]);
      var m := InsertAll(s, r[1..]);
      InsertIs(m, r[0]);
      assert forall a :: a in Insert(m, r[0]) <==> a in multiset(Insert(m, r[0]));
      assert forall a :: a in m <==> a in multiset(m);
    }
  }

  lemma {:induction false} AgainInOrder(s: seq<Alarm>, record: set<nat>, until: nat, i: nat, j: nat)
    requires Sorted(s) && Distinct(s) && i < j < |s| && s[j].at <= until
    requires s[i].ticket in record && s[i].interval > 0 && s[j].ticket in record && s[j].interval > 0
    ensures Before(Fire(s, record, until).again, Rearmed(s[i], until), Rearmed(s[j], until))
  {
    assert forall k :: 0 <= k < |s[1..]| ==> s[1..][k] == s[k + 1];
    assert s[0].at <= s[j].at;
    var r := if s[0].ticket in record && s[0].interval == 0 then record - {s[0].ticket} else record;
    var o := Fire(s[1..], r, until);
    if i > 0 {
      AgainInOrder(s[1..], r, until, i - 1, j - 1);
      BeforeRest(Rearmed(s[0], until), o.again, Rearmed(s[i], until), Rearmed(s[j], until));
    } else {
      ArmsAgain(s[1..], r, until);
      assert s[j] in s[1..];
      BeforeRest(Rearmed(s[0], until), o.again, Rearmed(s[i], until), Rearmed(s[j], until));
    }
  }

  /** A repeating alarm that fires is armed again before every alarm of the same time
      that was not due, and two such alarms keep their order. */
  lemma RearmedGoFirst(s: State, n: nat, i: nat, j: nat)
    requires Good(s) && i < |s.alarms| && j < |s.alarms| && s.alarms[i].at <= s.now + n
    requires s.alarms[i].ticket in s.record && s.alarms[i].interval > 0
    ensures var x, b, until := s.alarms[i], s.alarms[j], s.now + n;
      var y := x.(at := if until < x.at + x.interval then x.at + x.interval else until);
      var z := b.(at := if until < b.at + b.interval then b.at + b.interval else until);
      && (b.at > until && y.at == b.at ==> Before(Stepped(s, n).alarms, y, b))
      && (i < j && b.at <= until && b.ticket in s.record && b.interval > 0 && y.at == z.at ==>
          Before(Stepped(s, n).alarms, y, z))
  {
    hide Fire, InsertAll, Before, Calls;
    var x, b, until := s.alarms[i], s.alarms[j], s.now + n;
    var o := Fire(s.alarms, s.record, until);
    var y, z := Rearmed(x, until), Rearmed(b, until);
    var k := LeavesTheRest(s.alarms, s.record, until);
    ArmsAgain(s.alarms, s.record, until);
    assert y in o.again;
    SuffixGood(s.alarms, k);
    SuffixIs(s.alarms, until, k);
    if b.at > until && y.at == b.at {
      var m :| 0 <= m < |o.again| && o.again[m] == y;
      ArmedAgainFirst(o.rest, o.again, m, b);
    }
    if i < j && b.at <= until && b.ticket in s.record && b.interval > 0 && y.at == z.at {
      AgainInOrder(s.alarms, s.record, until, i, j);
      InOrderFirst(o.rest, o.again, y, z);
    }
  }

  lemma InOrderFirst(s: seq<Alarm>, r: seq<Alarm>, a: Alarm, b: Alarm)
    requires Sorted(s) && Before(r, a, b) && a.at <= b.at
    ensures Before(InsertAll(s, r), a, b)
  {
    var i, j :| 0 <= i < j < |r| && r[i] == a && r[j] == b;
    assert r[i + 1..][j - i - 1] == b;
    ArmedAgainFirst(s, r, i, b);
  }

  // ---------------------------------------------------------------------
  // Steps add up
  // ---------------------------------------------------------------------

  ghost predicate OneShots(s: seq<Alarm>) {
    forall i :: 0 <= i < |s| ==> s[i].interval == 0
  }

  lemma {:induction false} FireTwice(s: seq<Alarm>, record: set<nat>, t: nat, u: nat)
    requires OneShots(s) && t <= u
    ensures var o := Fire(s, record, t); var p := Fire(o.rest, o.record, u); var q := Fire(s, record, u);
      o.again == [] && p.again == [] && q == Outcome(p.rest, p.record, o.fired + p.fired, [])
    ensures OneShots(Fire(s, record, t).rest)
  {
    if s == [] || s[0].at > t {
      OnceEnough(s, record, u);
    } else {
      assert forall i :: 0 <= i < |s[1..]| ==> s[1..][i] == s[i + 1];
      var r := if s[0].ticket in record then record - {s[0].ticket} else record;
      FireTwice(s[1..], r, t, u);
      var o, p := Fire(s[1..], r, t), Fire(Fire(s, record, t).rest, Fire(s, record, t).record, u);
      assert [s[0]] + (o.fired + p.fired) == ([s[0]] + o.fired) + p.fired;
    }
  }

  lemma {:induction false} OnceEnough(s: seq<Alarm>, record: set<nat>, u: nat)
    requires OneShots(s)
    ensures Fire(s, record, u).again == []
  {
    if s != [] && s[0].at <= u {
      assert forall i :: 0 <= i < |s[1..]| ==> s[1..][i] == s[i + 1];
      OnceEnough(s[1..], if s[0].ticket in record then record - {s[0].ticket} else record, u);
    }
  }

  lemma {:induction false} CallsJoin(s: seq<Alarm>, r: seq<Alarm>)
    ensures Calls(s + r) == Calls(s) + Calls(r)
  {
    if s == [] {
      assert s + r == r;
    } else {
      assert (s + r)[1..] == s[1..] + r;
      CallsJoin(s[1..], r);
    }
  }

  /** For one-shot alarms two steps are one long step: same queue, same record,
      same callbacks in the same order. */
  lemma StepsAddUp(s: State, a: nat, b: nat)
    requires OneShots(s.alarms)
    ensures Stepped(Stepped(s, a), b) == Stepped(s, a + b)
  {
    hide Fire, Calls;
    FireTwice(s.alarms, s.record, s.now + a, s.now + (a + b));
    var o := Fire(s.alarms, s.record, s.now + a);
    CallsJoin(o.fired, Fire(o.rest, o.record, s.now + a + b).fired);
    assert s.now + a + b == s.now + (a + b);
  }

  // ---------------------------------------------------------------------
  // Whole runs
  // ---------------------------------------------------------------------

  datatype Op = WaitOp(us: nat, func: nat, repeating: bool) | CancelOp(ticket: nat) | StepOp(n: nat)

  function After(s: State, op: Op): State {
    match op
    case WaitOp(us, func, repeating) => Waited(s, us, func, repeating)
    case CancelOp(t) => Cancelled(s, t)
    case StepOp(n) => Stepped(s, n)
  }

  function Run(s: State, ops: seq<Op>): State
    decreases |ops|
  {
    if ops == [] then s else Run(After(s, ops[0]), ops[1..])
  }

  lemma {:induction false} RunsStayGood(s: State, ops: seq<Op>)
    requires Good(s)
    ensures Good(Run(s, ops))
    decreases |ops|
  {
    if ops != [] {
      hide Good, Waited, Cancelled, Stepped;
      match ops[0] {
        case WaitOp(us, func, repeating) => WaitedIsGood(s, us, func, repeating);
        case CancelOp(t) => CancelledIsGood(s, t);
        case StepOp(n) => SteppedIsGood(s, n);
      }
      RunsStayGood(After(s, ops[0]), ops[1..]);
    }
  }

  function Count(c: seq<Firing>, t: nat): nat {
    if c == [] then 0 else (if c[0].ticket == t then 1 else 0) + Count(c[1..], t)
  }

  lemma {:induction false} CountJoin(c: seq<Firing>, d: seq<Firing>, t: nat)
    ensures Count(c + d, t) == Count(c, t) + Count(d, t)
  {
    if c == [] {
      assert c + d == d;
    } else {
      assert (c + d)[1..] == c[1..] + d;
      CountJoin(c[1..], d, t);
    }
  }

  lemma {:induction false} CountCalled(c: seq<Firing>, t: nat)
    ensures Count(c, t) > 0 <==> Called(c, t)
    ensures (forall i, j :: 0 <= i < j < |c| ==> c[i].ticket != c[j].ticket) ==> Count(c, t) <= 1
  {
    if c != [] {
      CountCalled(c[1..], t);
      assert forall i :: 0 <= i < |c[1..]| ==> c[1..][i] == c[i + 1];
      if Called(c, t) && c[0].ticket != t {
        var i :| 0 <= i < |c| && c[i].ticket == t;
        assert c[1..][i - 1].ticket == t;
      }
      if Called(c[1..], t) {
        var i :| 0 <= i < |c[1..]| && c[1..][i].ticket == t;
        assert c[i + 1].ticket == t;
      }
    }
  }

  lemma StepCountsOnce(s: State, n: nat, t: nat)
    requires Good(s)
    ensures Count(StepCalls(s, n), t) <= 1
    ensures t !in s.record ==> Count(StepCalls(s, n), t) == 0
  {
    hide Fire, Count;
    FiresExactly(s.alarms, s.record, s.now + n);
    CountCalled(StepCalls(s, n), t);
    StepCallsExactly(s, n, t);
  }

  /** A ticket that was cancelled, or that fired and does not repeat, is never called again. */
  lemma {:induction false} DeadTicketsStaySilent(s: State, ops: seq<Op>, t: nat)
    requires Good(s) && t <= s.conductor && t !in s.record
    ensures Count(Run(s, ops).log, t) == Count(s.log, t) && t !in Run(s, ops).record
    decreases |ops|
  {
    if ops != [] {
      hide Good, Fire, Count;
      RunsStayGood(s, ops[..1]);
      RunOne(s, ops);
      if ops[0].StepOp? {
        StepCountsOnce(s, ops[0].n, t);
        CountJoin(s.log, StepCalls(s, ops[0].n), t);
        RecordShrinks(s, ops[0].n);
      }
      DeadTicketsStaySilent(After(s, ops[0]), ops[1..], t);
    }
  }

  lemma RunOne(s: State, ops: seq<Op>)
    requires ops != []
    ensures Run(s, ops[..1]) == After(s, ops[0])
  {
    assert ops[..1][1..] == [];
  }

  lemma RecordShrinks(s: State, n: nat)
    requires Good(s)
    ensures forall t :: t in Stepped(s, n).record ==> t in s.record
  {
    hide Fire;
    RecordLoses(s.alarms, s.record, s.now + n);
  }

  /** A one-shot ticket is called at most once in any run. */
  lemma {:induction false} OneShotsFireOnce(s: State, ops: seq<Op>, a: Alarm)
    requires Good(s) && a in s.alarms && a.interval == 0
    ensures Count(Run(s, ops).log, a.ticket) <= Count(s.log, a.ticket) + 1
    decreases |ops|
  {
    if ops != [] {
      hide Good, Fire, Count, Stepped, After;
      var u := After(s, ops[0]);
      RunsStayGood(s, ops[..1]);
      RunOne(s, ops);
      OneShotStays(s, ops[0], a);
      if a in u.alarms && Count(u.log, a.ticket) == Count(s.log, a.ticket) {
        OneShotsFireOnce(u, ops[1..], a);
      } else {
        DeadTicketsStaySilent(u, ops[1..], a.ticket);
      }
    }
  }

  /** After an operation a one-shot alarm is still there and was not called, or it
      was called at most once and is dead. */
  lemma OneShotStays(s: State, op: Op, a: Alarm)
    requires Good(s) && a in s.alarms && a.interval == 0
    ensures var u := After(s, op);
      if a in u.alarms && Count(u.log, a.ticket) == Count(s.log, a.ticket) then true
      else
        Count(u.log, a.ticket) <= Count(s.log, a.ticket) + 1 && a.ticket !in u.record && a.ticket <= u.conductor
  {
    hide Good, Fire, Count, Insert;
    AlarmNumbered(s, a);
    match op {
      case WaitOp(us, func, repeating) => WaitKeepsAlarm(s, us, func, repeating, a);
      case CancelOp(t) =>
      case StepOp(n) =>
        StepCountsOnce(s, n, a.ticket);
        CountJoin(s.log, StepCalls(s, n), a.ticket);
        OneShotStep(s, n, a);
    }
  }

  lemma WaitKeepsAlarm(s: State, us: nat, func: nat, repeating: bool, a: Alarm)
    requires a in s.alarms
    ensures a in Waited(s, us, func, repeating).alarms
  {
    var x := Alarm(s.conductor + 1, s.now + Ticks(us), func, if repeating then Ticks(us) else 0);
    InsertIs(s.alarms, x);
    assert a in multiset(Insert(s.alarms, x));
  }

  lemma AlarmNumbered(s: State, a: Alarm)
    requires Good(s) && a in s.alarms
    ensures a.ticket <= s.conductor
  {
  }

  lemma OneShotStep(s: State, n: nat, a: Alarm)
    requires Good(s) && a in s.alarms && a.interval == 0
    ensures a.at <= s.now + n ==> a.ticket !in Stepped(s, n).record
    ensures a.at > s.now + n ==> a in Stepped(s, n).alarms && Count(StepCalls(s, n), a.ticket) == 0
  {
    hide Stepped, Good, StepCalls, Called, Count;
    if a.at <= s.now + n {
      OneShotGone(s, n, a);
    } else {
      SteppedAlarms(s, n);
      OnlyAlarm(s, a);
      StepCallsExactly(s, n, a.ticket);
      CountCalled(StepCalls(s, n), a.ticket);
    }
  }

  lemma OneShotGone(s: State, n: nat, a: Alarm)
    requires Good(s) && a in s.alarms && a.interval == 0 && a.at <= s.now + n
    ensures a.ticket !in Stepped(s, n).record
  {
    hide Fire, InsertAll, Calls;
    RecordLoses(s.alarms, s.record, s.now + n);
  }

  // ---------------------------------------------------------------------
  // Prefix sums
  // ---------------------------------------------------------------------

  function Sum(q: seq<Node>): nat {
    if q == [] then 0 else q[0].diff + Sum(q[1..])
  }

  lemma {:induction false} AlarmsJoin(p: seq<Node>, q: seq<Node>, base: nat)
    ensures Alarms(p + q, base) == Alarms(p, base) + Alarms(q, base + Sum(p))
  {
    if p == [] {
      assert p + q == q;
    } else {
      assert (p + q)[1..] == p[1..] + q;
      AlarmsJoin(p[1..], q, base + p[0].diff);
    }
  }

  lemma {:induction false} SumNext(q: seq<Node>, i: nat)
    requires i < |q|
    ensures Sum(q[..i + 1]) == Sum(q[..i]) + q[i].diff
  {
    if i == 0 {
      assert q[..1][1..] == [] && q[..0] == [];
    } else {
      SumNext(q[1..], i - 1);
      assert q[..i + 1][1..] == q[1..][..i] && q[..i][1..] == q[1..][..i - 1];
    }
  }

  /** An alarm later than the first i goes behind them. */
  lemma {:induction false} InsertBehind(s: seq<Alarm>, r: seq<Alarm>, x: Alarm)
    requires forall i :: 0 <= i < |s| ==> s[i].at < x.at
    ensures Insert(s + r, x) == s + Insert(r, x)
  {
    if s == [] {
      assert s + r == r;
    } else {
      assert (s + r)[1..] == s[1..] + r;
      assert forall i :: 0 <= i < |s[1..]| ==> s[1..][i] == s[i + 1];
      InsertBehind(s[1..], r, x);
    }
  }

  /** The place the loop stops at: behind all earlier alarms. */
  ghost predicate Passed(q: seq<Node>, base: nat, i: nat, at: nat) {
    i <= |q| && base + Sum(q[..i]) <= at && forall j :: 0 <= j < i ==> Alarms(q[..i], base)[j].at < at
  }

  lemma PassedNone(q: seq<Node>, base: nat, at: nat)
    requires base <= at
    ensures Passed(q, base, 0, at) && Sum(q[..0]) == 0
  {
  }

  lemma PassNext(q: seq<Node>, base: nat, i: nat, at: nat)
    requires Passed(q, base, i, at) && i < |q| && base + Sum(q[..i]) + q[i].diff < at
    ensures Passed(q, base, i + 1, at) && Sum(q[..i + 1]) == Sum(q[..i]) + q[i].diff
  {
    SumNext(q, i);
    assert q[..i + 1] == q[..i] + [q[i]];
    AlarmsJoin(q[..i], [q[i]], base);
  }

  /** Splitting the difference at entry i puts one alarm in and moves none. */
  lemma PutSplits(q: seq<Node>, base: nat, i: nat, n: Node, delta: nat)
    requires i <= |q| && Passed(q, base, i, base + n.diff) && delta == base + n.diff - (base + Sum(q[..i]))
    requires i < |q| ==> delta <= q[i].diff
    ensures i < |q| ==>
      Alarms(q[..i] + [n.(diff := delta)] + [q[i].(diff := q[i].diff - delta)] + q[i + 1..],
          base) == Insert(Alarms(q, base), AlarmOf(n, base))
    ensures i == |q| ==> Alarms(q + [n.(diff := delta)], base) == Insert(Alarms(q, base), AlarmOf(n, base))
  {
    hide *;
    var x, m, p := AlarmOf(n, base), n.(diff := delta), q[..i];
    var mid := base + Sum(p);
    AlarmsJoin(p, q[i..], base);
    InsertBehindPassed(q, base, i, x, n);
    if i < |q| {
      var m2 := q[i].(diff := q[i].diff - delta);
      AlarmsJoin(p, [m] + [m2] + q[i + 1..], base);
      Regroup(q, i, m, m2);
      SplitHere(q[i..], mid, m, x);
    } else {
      AlarmsJoin(p, [m], base);
      LastHere(mid, m, x);
      RegroupLast(q, i, m);
    }
  }

  lemma Regroup(q: seq<Node>, i: nat, m: Node, m2: Node)
    requires i < |q|
    ensures q == q[..i] + q[i..] && q[i..][1..] == q[i + 1..] && q[i..] != [] && q[i..][0] == q[i]
    ensures q[..i] + [m] + [m2] + q[i + 1..] == q[..i] + ([m] + [m2] + q[i + 1..])
  {
  }

  lemma RegroupLast(q: seq<Node>, i: nat, m: Node)
    requires i == |q|
    ensures q == q[..i] + q[i..] && q[i..] == [] && q + [m] == q[..i] + [m]
  {
  }

  lemma InsertBehindPassed(q: seq<Node>, base: nat, i: nat, x: Alarm, n: Node)
    requires Passed(q, base, i, base + n.diff) && x == AlarmOf(n, base)
    ensures i <= |q| && q == q[..i] + q[i..]
    ensures Insert(Alarms(q[..i], base) + Alarms(q[i..], base + Sum(q[..i])), x) ==
      Alarms(q[..i], base) + Insert(Alarms(q[i..], base + Sum(q[..i])), x)
    ensures x.at == base + n.diff && x == Alarm(n.ticket, x.at, n.func, n.interval)
  {
    InsertBehind(Alarms(q[..i], base), Alarms(q[i..], base + Sum(q[..i])), x);
  }

  lemma SplitHere(r: seq<Node>, mid: nat, m: Node, x: Alarm)
    requires r != [] && m.diff <= r[0].diff && x == Alarm(m.ticket, mid + m.diff, m.func, m.interval)
    ensures Alarms([m] + [r[0].(diff := r[0].diff - m.diff)] + r[1..], mid) == Insert(Alarms(r, mid), x)
  {
    var m2 := r[0].(diff := r[0].diff - m.diff);
    assert ([m] + [m2] + r[1..])[1..] == [m2] + r[1..];
    assert ([m2] + r[1..])[1..] == r[1..];
    assert AlarmOf(m2, mid + m.diff) == AlarmOf(r[0], mid);
    assert Alarms([m2] + r[1..], mid + m.diff) == Alarms(r, mid);
  }

  lemma LastHere(mid: nat, m: Node, x: Alarm)
    requires x == Alarm(m.ticket, mid + m.diff, m.func, m.interval)
    ensures Alarms([m], mid) == Insert(Alarms([], mid), x)
  {
    assert [m][1..] == [];
  }

  lemma {:induction false} InsertAllLast(s: seq<Alarm>, r: seq<Alarm>, x: Alarm)
    ensures InsertAll(s, r + [x]) == InsertAll(Insert(s, x), r)
  {
    if r == [] {
      assert r + [x] == [x];
      assert [x][1..] == [];
    } else {
      assert (r + [x])[1..] == r[1..] + [x];
      InsertAllLast(s, r[1..], x);
    }
  }

  /** The list of nodes to put back stands in reverse. */
  ghost predicate Reversed(p: seq<Node>, r: seq<Alarm>, base: nat) {
    |p| == |r| && forall i :: 0 <= i < |p| ==> AlarmOf(p[i], base) == r[|r| - 1 - i]
  }

  /** What is done so far and what is still to come make up the whole outcome. */
  ghost predicate Halfway(whole: Outcome, fired: seq<Alarm>, again: seq<Alarm>, o: Outcome) {
    && whole.rest == o.rest && whole.record == o.record
    && whole.fired == fired + o.fired && whole.again == again + o.again
  }

  lemma HalfwaySkip(whole: Outcome, fired: seq<Alarm>, again: seq<Alarm>, s: seq<Alarm>, record: set<nat>, until: nat)
    requires s != [] && s[0].at <= until && s[0].ticket !in record
    requires Halfway(whole, fired, again, Fire(s, record, until))
    ensures Halfway(whole, fired, again, Fire(s[1..], record, until))
  {
  }

  lemma HalfwayOnce(whole: Outcome, fired: seq<Alarm>, again: seq<Alarm>, s: seq<Alarm>, record: set<nat>, until: nat)
    requires s != [] && s[0].at <= until && s[0].ticket in record && s[0].interval == 0
    requires Halfway(whole, fired, again, Fire(s, record, until))
    ensures Halfway(whole, fired + [s[0]], again, Fire(s[1..], record - {s[0].ticket}, until))
  {
    var o := Fire(s[1..], record - {s[0].ticket}, until);
    assert fired + ([s[0]] + o.fired) == fired + [s[0]] + o.fired;
  }

  lemma HalfwayAgain(whole: Outcome, fired: seq<Alarm>, again: seq<Alarm>, s: seq<Alarm>, record: set<nat>, until: nat)
    requires s != [] && s[0].at <= until && s[0].ticket in record && s[0].interval > 0
    requires Halfway(whole, fired, again, Fire(s, record, until))
    ensures Halfway(whole, fired + [s[0]], again + [Rearmed(s[0], until)], Fire(s[1..], record, until))
  {
    var o := Fire(s[1..], record, until);
    assert fired + ([s[0]] + o.fired) == fired + [s[0]] + o.fired;
    assert again + ([Rearmed(s[0], until)] + o.again) == again + [Rearmed(s[0], until)] + o.again;
  }

  lemma HalfwayEnd(whole: Outcome, fired: seq<Alarm>, again: seq<Alarm>, s: seq<Alarm>, record: set<nat>, until: nat)
    requires s == [] || s[0].at > until
    requires Halfway(whole, fired, again, Fire(s, record, until))
    ensures whole == Outcome(s, record, fired, again)
  {
    assert fired + [] == fired && again + [] == again;
  }

  lemma ReversedMore(p: seq<Node>, r: seq<Alarm>, base: nat, n: Node)
    requires Reversed(p, r, base)
    ensures Reversed([n] + p, r + [AlarmOf(n, base)], base)
  {
  }

  lemma ReversedLess(p: seq<Node>, r: seq<Alarm>, base: nat)
    requires Reversed(p, r, base) && p != []
    ensures r != [] && r == r[..|r| - 1] + [AlarmOf(p[0], base)]
    ensures Reversed(p[1..], r[..|r| - 1], base)
  {
  }

  lemma FirstAlarm(q: seq<Node>, base: nat)
    ensures q == [] <==> Alarms(q, base) == []
    ensures q != [] ==>
      Alarms(q, base)[0] == AlarmOf(q[0], base) && Alarms(q, base)[1..] == Alarms(q[1..], base + q[0].diff)
  {
  }

  lemma FirstShrinks(q: seq<Node>, base: nat, n: nat)
    requires q != [] && n <= q[0].diff
    ensures Alarms([q[0].(diff := q[0].diff - n)] + q[1..], base + n) == Alarms(q, base)
  {
  }

  lemma CallsNext(f: seq<Alarm>, a: Alarm)
    ensures Calls(f + [a]) == Calls(f) + [Firing(a.ticket, a.func)]
  {
    CallsJoin(f, [a]);
    assert Calls([a]) == [Firing(a.ticket, a.func)] by {
      assert [a][1..] == [];
    }
  }

  // ---------------------------------------------------------------------
  // The timer
  // ---------------------------------------------------------------------

  class Timer {
    var queue: seq<Node>
    var record: set<nat>
    var conductor: nat
    var log: seq<Firing>      // the callbacks made, oldest first
    ghost var now: nat        // ticks since the start

    ghost function View(): State
      reads this
    {
      State(now, Alarms(queue, now), record, conductor, log)
    }

    ghost predicate Valid()
      reads this
    {
      Good(View())
    }

    constructor ()
      ensures Valid() && View() == State(0, [], {}, 0, [])
    {
      queue, record, conductor, log, now := [], {}, 0, [], 0;
    }

    /** Links a node in: the loop takes off the difference of every node it passes. */
    method PutNode(node: Node)
      modifies this`queue
      ensures Alarms(queue, now) == Insert(old(Alarms(queue, now)), AlarmOf(node, now))
    {
      hide *;
      var delta: nat := node.diff;
      var i: nat := 0;
      ghost var at := now + node.diff;
      PassedNone(queue, now, at);
      AlarmOfIs(node, now);
      while i < |queue|
        invariant i <= |queue| && queue == old(queue)
        invariant Passed(queue, now, i, at) && delta == at - (now + Sum(queue[..i]))
      {
        var it := queue[i];
        if delta <= it.diff {
          PutSplits(queue, now, i, node, delta);
          queue := queue[i := it.(diff := it.diff - delta)];
          queue := queue[..i] + [node.(diff := delta)] + queue[i..];
          SameNodes(old(queue), i, node.(diff := delta), it.(diff := it.diff - delta));
          return;
        }
        PassNext(queue, now, i, at);
        delta := delta - it.diff;
        i := i + 1;
      }
      PutSplits(queue, now, i, node, delta);
      queue := queue + [node.(diff := delta)];
    }

    method Wait(us: nat, func: nat, repeating: bool) returns (ticket: nat)
      requires Valid()
      modifies this
      ensures Valid() && View() == Waited(old(View()), us, func, repeating)
      ensures ticket == conductor == old(conductor) + 1
      ensures Armed(old(View()), View(), ticket, if us / 1000 > 1 then us / 1000 else 1, func, repeating)
    {
      hide Good, Insert, Alarms, Armed;
      WaitedIsGood(View(), us, func, repeating);
      WaitedMeans(View(), us, func, repeating, if us / HEARTBEAT_US > 1 then us / HEARTBEAT_US else 1);
      conductor := conductor + 1;
      ticket := conductor;
      record := record + {ticket};
      var total := if us / HEARTBEAT_US > 1 then us / HEARTBEAT_US else 1;
      PutNode(Node(ticket, total, func, if repeating then total else 0));
    }

    method Cancel(ticket: nat) returns (pending: bool)
      requires Valid()
      modifies this`record
      ensures Valid() && View() == Cancelled(old(View()), ticket)
      ensures pending <==> exists n: nat :: Called(StepCalls(old(View()), n), ticket)
      // it is not called any more, and all others as before
      ensures forall n: nat, t: nat ::
        Called(StepCalls(View(), n), t) <==> t != ticket && Called(StepCalls(old(View()), n), t)
    {
      CancelTellsWhetherItCouldFire(View(), ticket);
      CancelSilences(View(), ticket);
      CancelledIsGood(View(), ticket);
      if ticket !in record {
        assert record - {ticket} == record;
        return false;
      }
      record := record - {ticket};
      return true;
    }

    /** The first loop of a step: calls what is due and sets repeating nodes aside. */
    method FireDue(n: nat, ghost whole: Outcome) returns (list: seq<Node>)
      requires whole == Fire(Alarms(queue, now), record, now + n)
      modifies this
      ensures now == old(now) + n && conductor == old(conductor)
      ensures Alarms(queue, now) == whole.rest && record == whole.record
      ensures log == old(log) + Calls(whole.fired)
      ensures Reversed(list, whole.again, now)
    {
      hide *;
      var count: nat := n;
      list := [];
      ghost var until := now + n;
      ghost var fired: seq<Alarm>, again: seq<Alarm> := [], [];
      HalfwayStart(whole);
      while queue != []
        invariant now + count == until && conductor == old(conductor)
        invariant Halfway(whole, fired, again, Fire(Alarms(queue, now), record, until))
        invariant log == old(log) + Calls(fired) && Reversed(list, again, until)
        decreases |queue|
      {
        var cur := queue[0];
        ghost var s := Alarms(queue, now);
        FirstAlarm(queue, now);
        AlarmOfIs(cur, now);
        if cur.diff > count {
          FirstShrinks(queue, now, count);
          HalfwayEnd(whole, fired, again, s, record, until);
          queue := [cur.(diff := cur.diff - count)] + queue[1..];
          now := until;
          return;
        }
        count := count - cur.diff;
        now := now + cur.diff;
        if cur.ticket !in record {
          HalfwaySkip(whole, fired, again, s, record, until);
          queue := queue[1..];
          continue;
        }
        log := log + [Firing(cur.ticket, cur.func)];
        CallsNext(fired, s[0]);
        if cur.interval == 0 {
          HalfwayOnce(whole, fired, again, s, record, until);
          fired := fired + [s[0]];
          record := record - {cur.ticket};
          queue := queue[1..];
          continue;
        }
        HalfwayAgain(whole, fired, again, s, record, until);
        fired := fired + [s[0]];
        queue := queue[1..];
        var node := cur.(diff := if cur.interval > count then cur.interval - count else 0);
        RearmedIs(cur, s[0], node, now, count, until);
        ReversedMore(list, again, until, node);
        again := again + [Rearmed(s[0], until)];
        list := [node] + list;
      }
      FirstAlarm(queue, now);
      FirstAlarm(queue, until);
      HalfwayEnd(whole, fired, again, Alarms(queue, now), record, until);
      now := until;
    }

    method Step(n: nat)
      requires Valid() && n > 0
      modifies this
      ensures Valid() && View() == Stepped(old(View()), n)
      ensures now == old(now) + n && log == old(log) + StepCalls(old(View()), n)
    {
      hide Good, Fire, Insert, InsertAll, Alarms, Calls, Reversed, AlarmOf;
      SteppedIsGood(View(), n);
      ghost var whole := Fire(Alarms(queue, now), record, now + n);
      var list := FireDue(n, whole);
      ghost var again := whole.again;
      NothingAgain(Alarms(queue, now));
      while list != []
        invariant now == old(now) + n && conductor == old(conductor)
        invariant record == whole.record && log == old(log) + Calls(whole.fired)
        invariant Reversed(list, again, now)
        invariant InsertAll(Alarms(queue, now), again) == InsertAll(whole.rest, whole.again)
        decreases |list|
      {
        var node := list[0];
        ReversedLess(list, again, now);
        InsertAllLast(Alarms(queue, now), again[..|again| - 1], AlarmOf(node, now));
        list := list[1..];
        PutNode(node);
        again := again[..|again| - 1];
      }
      ReversedEmpty(list, again, now);
      NothingAgain(Alarms(queue, now));
    }
  }

  lemma AlarmOfIs(n: Node, base: nat)
    ensures AlarmOf(n, base) == Alarm(n.ticket, base + n.diff, n.func, n.interval)
  {
  }

  lemma SameNodes(q: seq<Node>, i: nat, m: Node, m2: Node)
    requires i < |q|
    ensures var r := q[i := m2]; r[..i] + [m] + r[i..] == q[..i] + [m] + [m2] + q[i + 1..]
  {
  }

  lemma HalfwayStart(o: Outcome)
    ensures Halfway(o, [], [], o) && forall l: seq<Firing> :: l == l + Calls([])
    ensures forall t: nat :: Reversed([], [], t)
  {
    assert [] + o.fired == o.fired && [] + o.again == o.again;
  }

  lemma RearmedIs(cur: Node, a: Alarm, node: Node, at: nat, count: nat, until: nat)
    requires a.at == at && a == Alarm(cur.ticket, at, cur.func, cur.interval) && at + count == until
    requires node == cur.(diff := if cur.interval > count then cur.interval - count else 0)
    ensures AlarmOf(node, until) == Rearmed(a, until)
  {
  }

  lemma NothingAgain(s: seq<Alarm>)
    ensures InsertAll(s, []) == s
  {
  }

  lemma ReversedEmpty(p: seq<Node>, r: seq<Alarm>, base: nat)
    requires Reversed(p, r, base) && p == []
    ensures r == []
  {
  }
}
