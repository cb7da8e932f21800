/** Thread queues (kernel/process/waitable.cpp): first-in first-out lists of
    threads that are all linked through the one next field of a thread. */
module ThreadQueues {

  /** Threads and waitable objects are numbered from 1; 0 is the null pointer. */
  type Links = map<nat, nat>

  datatype Queue = Queue(head: nat, tail: nat)

  /** The ready queue of a priority, the wait queue of an object, the queue of the collector. */
  datatype QueueId = Ready(priority: nat) | Wait(object_: nat) | Gc

  /** Where a thread is linked in. */
  datatype Place = InQueue(q: QueueId) | Nowhere

  type Queues = map<QueueId, Queue>
  type Lists = map<QueueId, seq<nat>>
  type Places = map<nat, Place>

  ghost predicate NoRepeats(s: seq<nat>) {
    forall i, j :: 0 <= i < j < |s| ==> s[i] != s[j]
  }

  function At(s: seq<nat>, i: int): nat {
    if 0 <= i < |s| then s[i] else 0
  }

  ghost predicate LinkAt(next: Links, s: seq<nat>, i: nat) {
    i < |s| && s[i] != 0 && s[i] in next && next[s[i]] == At(s, i + 1)
  }

  /** The links from the head run through s and end. */
  ghost predicate Chain(next: Links, s: seq<nat>) {
    NoRepeats(s) && forall i: nat :: i < |s| ==> LinkAt(next, s, i)
  }

  ghost predicate Stored(next: Links, q: Queue, s: seq<nat>) {
    Chain(next, s) && q == Queue(At(s, 0), At(s, |s| - 1))
  }

  lemma StoredFacts(next: Links, q: Queue, s: seq<nat>)
    requires Stored(next, q, s)
    ensures q.head == 0 <==> s == []
    ensures q.tail == 0 <==> s == []
    ensures s != [] ==> q.head == s[0] && q.head in next && next[q.head] == At(s, 1)
    ensures s != [] ==> q.tail == s[|s| - 1] && q.tail in next && next[q.tail] == 0
    ensures s != [] ==> (At(s, 1) == 0 <==> |s| == 1)
  {
    if s != [] {
      assert LinkAt(next, s, 0) && LinkAt(next, s, |s| - 1);
      assert |s| > 1 ==> LinkAt(next, s, 1);
    }
  }

  lemma ChainElsewhere(next: Links, s: seq<nat>, t: nat, v: nat)
    requires Chain(next, s) && t !in s
    ensures Chain(next[t := v], s)
  {
    var m := next[t := v];
    forall i: nat | i < |s| ensures LinkAt(m, s, i) {
      assert LinkAt(next, s, i);
    }
  }

  /** put: the new thread is linked behind the tail. */
  function PutLinks(next: Links, q: Queue, t: nat): Links {
    if q.tail != 0 then next[t := 0][q.tail := t] else next[t := 0]
  }

  lemma PutStored(next: Links, q: Queue, s: seq<nat>, t: nat)
    requires Stored(next, q, s) && t !in s && t != 0
    ensures Stored(PutLinks(next, q, t), Queue(if q.tail != 0 then q.head else t, t), s + [t])
  {
    StoredFacts(next, q, s);
    var m := PutLinks(next, q, t);
    forall i: nat | i < |s + [t]| ensures LinkAt(m, s + [t], i) {
      if i < |s| {
        assert LinkAt(next, s, i);
      }
    }
  }

  lemma PutElsewhere(next: Links, q: Queue, s: seq<nat>, t: nat, r: seq<nat>)
    requires Stored(next, q, s) && Chain(next, r) && t !in r && forall x :: x in r ==> x !in s
    ensures Chain(PutLinks(next, q, t), r)
  {
    StoredFacts(next, q, s);
    ChainElsewhere(next, r, t, 0);
    if q.tail != 0 {
      ChainElsewhere(next[t := 0], r, q.tail, t);
    }
  }

  /** get: the head is unlinked. */
  lemma GetStored(next: Links, q: Queue, s: seq<nat>)
    requires Stored(next, q, s) && s != []
    ensures q.head in next && s[0] == q.head
    ensures Stored(next[q.head := 0], Queue(next[q.head], if next[q.head] == 0 then 0 else q.tail), s[1..])
  {
    StoredFacts(next, q, s);
    var r, m := s[1..], next[q.head := 0];
    forall i: nat | i < |r| ensures LinkAt(m, r, i) {
      assert LinkAt(next, s, i + 1);
    }
  }

  /** cancel: the thread before is linked to the thread after. */
  lemma UnlinkStored(next: Links, q: Queue, s: seq<nat>, k: nat)
    requires Stored(next, q, s) && 0 < k < |s|
    ensures s[k - 1] in next && s[k] in next
    ensures Stored(next[s[k - 1] := next[s[k]]], Queue(q.head, if next[s[k]] == 0 then s[k - 1] else q.tail),
        s[..k] + s[k + 1..])
  {
    StoredFacts(next, q, s);
    assert LinkAt(next, s, k - 1) && LinkAt(next, s, k);
    assert k + 1 < |s| ==> LinkAt(next, s, k + 1);
    var r, m := s[..k] + s[k + 1..], next[s[k - 1] := next[s[k]]];
    forall i: nat | i < |r| ensures LinkAt(m, r, i) {
      assert LinkAt(next, s, if i < k then i else i + 1);
    }
  }

  lemma ChainRest(next: Links, s: seq<nat>)
    requires Chain(next, s) && s != []
    ensures s[0] != 0 && s[0] in next && next[s[0]] == At(s, 1) && Chain(next, s[1..]) && At(s, 1) == At(s[1..], 0)
    ensures s[0] !in s[1..]
  {
    assert LinkAt(next, s, 0);
    forall i: nat | i < |s[1..]| ensures LinkAt(next, s[1..], i) {
      assert LinkAt(next, s, i + 1);
    }
  }

  // ---------------------------------------------------------------------
  // All queues together
  // ---------------------------------------------------------------------

  ghost predicate Listed(lists: Lists, q: QueueId, t: nat) {
    q in lists && t in lists[q]
  }

  ghost predicate AllStored(next: Links, queues: Queues, lists: Lists) {
    lists.Keys == queues.Keys && forall q :: q in lists ==> Stored(next, queues[q], lists[q])
  }

  /** A thread is listed exactly in the queue of its place. So no thread is in two queues. */
  ghost predicate InPlace(lists: Lists, place: Places) {
    && (forall q, t :: Listed(lists, q, t) ==> t in place && place[t] == InQueue(q))
    && (forall t :: t in place && place[t].InQueue? ==> Listed(lists, place[t].q, t))
    && (forall t :: t in place ==> t != 0)
  }

  ghost predicate LayoutOk(next: Links, queues: Queues, lists: Lists, place: Places) {
    AllStored(next, queues, lists) && InPlace(lists, place)
  }

  lemma ListsApart(lists: Lists, place: Places, q: QueueId, r: QueueId)
    requires InPlace(lists, place) && q in lists && r in lists && q != r
    ensures forall t :: t in lists[r] ==> t !in lists[q]
  {
    forall t | t in lists[r] ensures t !in lists[q] {
      assert Listed(lists, r, t);
      assert !Listed(lists, q, t);
    }
  }

  lemma PutInPlace(lists: Lists, place: Places, q: QueueId, t: nat)
    requires InPlace(lists, place) && q in lists && t in place && place[t] == Nowhere
    ensures t !in lists[q] && forall r :: r in lists ==> t !in lists[r]
    ensures InPlace(lists[q := lists[q] + [t]], place[t := InQueue(q)])
  {
    forall r | r in lists ensures t !in lists[r] {
      assert !Listed(lists, r, t);
    }
    var l := lists[q := lists[q] + [t]];
    forall r, x ensures Listed(l, r, x) <==> Listed(lists, r, x) || (r == q && x == t) {
    }
  }

  lemma PutLayout(next: Links, queues: Queues, lists: Lists, place: Places, q: QueueId, t: nat)
    requires LayoutOk(next, queues, lists, place) && q in queues && t in place && place[t] == Nowhere
    ensures q in lists
    ensures LayoutOk(PutLinks(next, queues[q], t),
        queues[q := Queue(if queues[q].tail != 0 then queues[q].head else t, t)],
      lists[q := lists[q] + [t]], place[t := InQueue(q)])
  {
    hide Stored, Chain, InPlace, PutLinks;
    assert t != 0 by {
      PlacedNotNull(lists, place, t);
    }
    PutInPlace(lists, place, q, t);
    PutStored(next, queues[q], lists[q], t);
    forall r | r in lists && r != q ensures Stored(PutLinks(next, queues[q], t), queues[r], lists[r]) {
      ListsApart(lists, place, q, r);
      StoredChain(next, queues[r], lists[r]);
      PutElsewhere(next, queues[q], lists[q], t, lists[r]);
      StoredChain(PutLinks(next, queues[q], t), queues[r], lists[r]);
    }
  }

  lemma PlacedNotNull(lists: Lists, place: Places, t: nat)
    requires InPlace(lists, place) && t in place
    ensures t != 0
  {
  }

  lemma StoredChain(next: Links, q: Queue, s: seq<nat>)
    ensures Stored(next, q, s) <==> Chain(next, s) && q == Queue(At(s, 0), At(s, |s| - 1))
  {
  }

  /** A list loses the one member t. */
  lemma DropInPlace(lists: Lists, place: Places, q: QueueId, s: seq<nat>, t: nat)
    requires InPlace(lists, place) && q in lists && t in lists[q]
    requires forall x :: x in s <==> x in lists[q] && x != t
    ensures t in place && InPlace(lists[q := s], place[t := Nowhere])
  {
    assert Listed(lists, q, t);
    var l := lists[q := s];
    forall r, x ensures Listed(l, r, x) <==> Listed(lists, r, x) && x != t {
      if Listed(lists, r, t) {
        assert r == q;
      }
    }
  }

  lemma GetLayout(next: Links, queues: Queues, lists: Lists, place: Places, q: QueueId)
    requires LayoutOk(next, queues, lists, place) && q in queues && q in lists && lists[q] != []
    ensures queues[q].head in next && lists[q][0] == queues[q].head
    ensures var t := queues[q].head;
      LayoutOk(next[t := 0], queues[q := Queue(next[t], if next[t] == 0 then 0 else queues[q].tail)],
        lists[q := lists[q][1..]], place[t := Nowhere])
  {
    hide Stored, Chain, InPlace;
    var t, s := queues[q].head, lists[q];
    GetStored(next, queues[q], s);
    StoredChain(next, queues[q], s);
    ChainRest(next, s);
    forall r | r in lists && r != q ensures Stored(next[t := 0], queues[r], lists[r]) {
      ListsApart(lists, place, q, r);
      StoredChain(next, queues[r], lists[r]);
      ChainElsewhere(next, lists[r], t, 0);
      StoredChain(next[t := 0], queues[r], lists[r]);
    }
    DropInPlace(lists, place, q, s[1..], t) by {
      assert forall x :: x in s <==> x == t || x in s[1..];
    }
  }

  lemma UnlinkLayout(next: Links, queues: Queues, lists: Lists, place: Places, q: QueueId, k: nat)
    requires LayoutOk(next, queues, lists, place) && q in queues && q in lists && 0 < k < |lists[q]|
    ensures lists[q][k - 1] in next && lists[q][k] in next
    ensures var p, t := lists[q][k - 1], lists[q][k];
      LayoutOk(next[p := next[t]], queues[q := Queue(queues[q].head, if next[t] == 0 then p else queues[q].tail)],
        lists[q := lists[q][..k] + lists[q][k + 1..]], place[t := Nowhere])
  {
    hide Stored, Chain, InPlace;
    var s := lists[q];
    var p, t := s[k - 1], s[k];
    UnlinkStored(next, queues[q], s, k);
    forall r | r in lists && r != q ensures Stored(next[p := next[t]], queues[r], lists[r]) {
      ListsApart(lists, place, q, r);
      assert p in s;
      StoredChain(next, queues[r], lists[r]);
      ChainElsewhere(next, lists[r], p, next[t]);
      StoredChain(next[p := next[t]], queues[r], lists[r]);
    }
    WithoutOne(next, queues[q], s, k);
    DropInPlace(lists, place, q, s[..k] + s[k + 1..], t);
  }

  lemma WithoutOne(next: Links, q: Queue, s: seq<nat>, k: nat)
    requires k < |s| && Stored(next, q, s)
    ensures forall x :: x in s[..k] + s[k + 1..] <==> x in s && x != s[k]
  {
    var r := s[..k] + s[k + 1..];
    forall x | x in s && x != s[k] ensures x in r {
      var i :| 0 <= i < |s| && s[i] == x;
      assert r[if i < k then i else i - 1] == x;
    }
  }

  ghost function Without(place: Places, s: seq<nat>): (p: Places)
    ensures p.Keys == place.Keys
    ensures forall t :: t in place ==> p[t] == if t in s then Nowhere else place[t]
  {
    map t | t in place :: if t in s then Nowhere else place[t]
  }

  /** clear: the chain is detached but stays linked. */
  lemma ClearLayout(next: Links, queues: Queues, lists: Lists, place: Places, q: QueueId)
    requires LayoutOk(next, queues, lists, place) && q in queues
    ensures q in lists && Chain(next, lists[q]) && queues[q].head == At(lists[q], 0)
    ensures LayoutOk(next, queues[q := Queue(0, 0)], lists[q := []], Without(place, lists[q]))
    ensures forall t :: t in lists[q] ==> t in place && t != 0
  {
    hide Chain;
    var s := lists[q];
    EmptyChain(next);
    assert forall t :: t in s ==> Listed(lists, q, t);
    var l := lists[q := []];
    forall r, x ensures Listed(l, r, x) <==> Listed(lists, r, x) && x !in s {
      if Listed(lists, r, x) && x in s {
        assert Listed(lists, q, x);
        assert r == q;
      }
    }
  }

  lemma EmptyChain(next: Links)
    ensures Chain(next, [])
  {
  }
}
