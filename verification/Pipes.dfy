/** The pipe (kernel/sync/pipe.cpp): a ring of bytes that holds one byte less than
    its size, with readers and writers that wait for it. */
module Pipes {
  import opened PowersOfTwo

  const WORD: nat := 0x1_0000_0000

  // ---------------------------------------------------------------------
  // The ring
  // ---------------------------------------------------------------------

  /** The bytes from head up to tail, around the end of the buffer. */
  function Ring(buffer: seq<nat>, head: nat, tail: nat): seq<nat>
    requires head < |buffer| && tail < |buffer|
  {
    if head <= tail then buffer[head..tail] else buffer[head..] + buffer[..tail]
  }

  function Step(i: nat, limit: nat): nat {
    if i + 1 == limit then 0 else i + 1
  }

  predicate IsFull(head: nat, tail: nat, limit: nat)
    requires limit > 0
  {
    (tail + 1) % limit == head
  }

  lemma FullMeans(buffer: seq<nat>, head: nat, tail: nat)
    requires head < |buffer| && tail < |buffer|
    ensures IsFull(head, tail, |buffer|) <==> |Ring(buffer, head, tail)| == |buffer| - 1
    ensures head == tail <==> Ring(buffer, head, tail) == []
    ensures |Ring(buffer, head, tail)| <= |buffer| - 1
    ensures IsFull(head, tail, |buffer|) <==> Step(tail, |buffer|) == head
  {
    Wraps(tail + 1, |buffer|);
  }

  /** Taking the byte at the head. */
  lemma RingTakes(buffer: seq<nat>, head: nat, tail: nat)
    requires head < |buffer| && tail < |buffer| && head != tail
    ensures Ring(buffer, head, tail) == [buffer[head]] + Ring(buffer, Step(head, |buffer|), tail)
  {
  }

  /** Adding a byte at the tail. */
  lemma RingGives(buffer: seq<nat>, head: nat, tail: nat, x: nat)
    requires head < |buffer| && tail < |buffer| && Step(tail, |buffer|) != head
    ensures Ring(buffer[tail := x], head, Step(tail, |buffer|)) == Ring(buffer, head, tail) + [x]
  {
    var b := buffer[tail := x];
    if head <= tail {
      assert b[head..tail] == buffer[head..tail];
      if tail + 1 == |buffer| {
        assert b[head..] + b[..0] == buffer[head..tail] + [x];
      }
    } else {
      assert b[head..] == buffer[head..] && b[..tail + 1] == buffer[..tail] + [x];
    }
  }

  /** The room the code computes, in unsigned 32-bit arithmetic. */
  function Available(head: nat, tail: nat, limit: nat): nat
    requires head < limit && tail < limit <= WORD
  {
    (((head + limit) % WORD - tail - 1) % WORD) % limit
  }

  lemma Wraps(v: int, m: nat)
    requires m > 0 && 0 <= v + m && v < 2 * m
    ensures v % m == if v < 0 then v + m else if v < m then v else v - m
  {
    var q, r := v / m, v % m;
    assert v == m * q + r;
    if v < 0 {
      Quotient(v, m, -1, v + m);
    } else if v < m {
      Quotient(v, m, 0, v);
    } else {
      Quotient(v, m, 1, v - m);
    }
  }

  lemma Quotient(v: int, m: nat, k: int, r: int)
    requires m > 0 && v == m * k + r && 0 <= r < m
    ensures v % m == r
  {
    var q, s := v / m, v % m;
    assert m * (q - k) == r - s by {
      assert v == m * q + s;
      assert m * (q - k) == m * q - m * k;
    }
    MulSign(m, q - k);
  }

  /** The room without overflow, and what it comes to with it. */
  lemma AvailableIs(head: nat, tail: nat, limit: nat)
    requires head < limit && tail < limit <= WORD
    ensures var v := head + limit - tail - 1;
      Available(head, tail, limit) == if v < limit then v else if v < WORD then v - limit else v - WORD
  {
    var v := head + limit - tail - 1;
    hide Available;
    Wraps(head + limit, WORD);
    Wraps((head + limit) % WORD - tail - 1, WORD);
    var w := if v < WORD then v else v - WORD;
    assert ((head + limit) % WORD - tail - 1) % WORD == w;
    Wraps(w, limit);
    AvailableUnfolds(head, tail, limit);
  }

  lemma AvailableUnfolds(head: nat, tail: nat, limit: nat)
    requires head < limit && tail < limit <= WORD
    ensures Available(head, tail, limit) == (((head + limit) % WORD - tail - 1) % WORD) % limit
  {
  }

  lemma Room(buffer: seq<nat>, head: nat, tail: nat)
    requires head < |buffer| <= WORD && tail < |buffer|
    ensures head + |buffer| - tail - 1 < WORD ==>
      Available(head, tail, |buffer|) == |buffer| - 1 - |Ring(buffer, head, tail)|
    ensures Available(head, tail, |buffer|) <= |buffer| - 1 - |Ring(buffer, head, tail)|
  {
    hide Available;
    AvailableIs(head, tail, |buffer|);
  }

  /** The room is right for every position of head and tail exactly in buffers of
      at most 2^31 bytes; in larger ones it can come out too small. */
  lemma RoomIsExact(limit: nat)
    requires 0 < limit < WORD
    ensures limit <= 0x8000_0000 <==>
      forall head: nat, tail: nat :: head < limit && tail < limit ==>
        Available(head, tail, limit) == (head + limit - tail - 1) % limit
  {
    hide Available;
    forall head: nat, tail: nat | head < limit && tail < limit && limit <= 0x8000_0000
      ensures Available(head, tail, limit) == (head + limit - tail - 1) % limit
    {
      AvailableIs(head, tail, limit);
      Wraps(head + limit - tail - 1, limit);
    }
    if limit > 0x8000_0000 {
      AvailableIs(limit - 1, 0, limit);
      Wraps(2 * limit - 2, limit);
      assert Available(limit - 1, 0, limit) != (limit - 1 + limit - 0 - 1) % limit;
    }
  }

  // ---------------------------------------------------------------------
  // The pipe
  // ---------------------------------------------------------------------

  datatype Side = READER | WRITER

  /** A waiting reader means the pipe is empty, a waiting writer that it is full. */
  ghost predicate QueueOk(queue: seq<Side>, empty: bool, full: bool) {
    forall i :: 0 <= i < |queue| ==> if queue[i] == READER then empty else full
  }

  lemma FullIs(head: nat, tail: nat, limit: nat)
    requires limit > 0
    ensures IsFull(head, tail, limit) <==> (tail + 1) % limit == head
  {
  }

  lemma QueueMoves(before: seq<Side>, e0: bool, f0: bool, after: seq<Side>, e1: bool, f1: bool)
    requires QueueOk(before, e0, f0) && (after == [] || after == before)
    requires after != [] ==> (e0 ==> e1) && (f0 ==> f1)
    ensures QueueOk(after, e1, f1)
  {
  }

  lemma StepIs(i: nat, limit: nat)
    ensures Step(i, limit) == if i + 1 == limit then 0 else i + 1
  {
  }

  lemma NothingMoved(was: seq<nat>, log: seq<nat>)
    ensures [] + was == was && log + [] == log && was + [] == was
  {
  }

  lemma NothingTaken(source: seq<nat>)
    ensures source[..0] == []
  {
  }

  lemma MoveOver(data: seq<nat>, x: nat, ring: seq<nat>, log: seq<nat>, rest: seq<nat>)
    requires ring == [x] + rest
    ensures data + ring == data + [x] + rest && log + data + [x] == log + (data + [x])
  {
  }

  lemma TakeOneMore(was: seq<nat>, log: seq<nat>, source: seq<nat>, count: nat)
    requires count < |source|
    ensures was + source[..count] + [source[count]] == was + source[..count + 1]
    ensures log + source[..count] + [source[count]] == log + source[..count + 1]
  {
    assert source[..count + 1] == source[..count] + [source[count]];
  }

  lemma Regroup(a: seq<nat>, b: seq<nat>, c: seq<nat>)
    ensures a + b + c == a + (b + c)
  {
  }

  class Pipe {
    const limit: nat
    const ownerWrites: bool
    const atomicWrite: bool
    const buffer: array<nat>
    var head: nat
    var tail: nat
    var queue: seq<Side>           // threads that wait, by what they wait for
    ghost var accepted: seq<nat>   // all bytes written so far
    ghost var returned: seq<nat>   // all bytes read so far

    ghost predicate InRange()
      reads this, buffer
    {
      && 0 < limit < WORD && buffer.Length == limit && head < limit && tail < limit
    }

    ghost function Contents(): seq<nat>
      requires InRange()
      reads this, buffer
    {
      Ring(buffer[..], head, tail)
    }

    ghost predicate Valid()
      reads this, buffer
    {
      && InRange()
      // first in, first out
      && accepted == returned + Contents()
      // nobody waits in vain
      && QueueOk(queue, head == tail, IsFull(head, tail, limit))
    }

    constructor (size: nat, ownerWrites: bool, atomicWrite: bool)
      requires 0 < size < WORD
      ensures Valid() && fresh(buffer) && limit == size && accepted == returned == [] && queue == []
      ensures this.ownerWrites == ownerWrites && this.atomicWrite == atomicWrite
    {
      limit, this.ownerWrites, this.atomicWrite := size, ownerWrites, atomicWrite;
      buffer := new nat[size](_ => 0);
      head, tail, queue, accepted, returned := 0, 0, [], [], [];
    }

    /** Whether the caller's side is the writing one. */
    predicate Writes(isOwner: bool) {
      isOwner == ownerWrites
    }

    method Check(isOwner: bool) returns (ready: bool)
      requires Valid()
      ensures Writes(isOwner) ==> (ready <==> |Contents()| < limit - 1)
      ensures !Writes(isOwner) ==> (ready <==> Contents() != [])
    {
      FullMeans(buffer[..], head, tail);
      if isOwner == ownerWrites {
        return (tail + 1) % limit != head;
      } else {
        return head != tail;
      }
    }

    /** Passes if there is something to do for the caller's side, else queues it. */
    method WaitFor(isOwner: bool) returns (passed: bool)
      requires Valid()
      modifies this`queue
      ensures Valid()
      ensures passed <==> if Writes(isOwner) then |Contents()| < limit - 1 else Contents() != []
      ensures queue == if passed then old(queue) else old(queue) + [if Writes(isOwner) then WRITER else READER]
    {
      FullMeans(buffer[..], head, tail);
      passed := Check(isOwner);
      if !passed {
        queue := queue + [if isOwner == ownerWrites then WRITER else READER];
      }
    }

    /** The time of a waiting thread is up. */
    method TimeOut(i: nat)
      requires Valid() && i < |queue|
      modifies this`queue
      ensures Valid() && queue == old(queue)[..i] + old(queue)[i + 1..]
    {
      queue := queue[..i] + queue[i + 1..];
    }

    method Read(length: nat, isOwner: bool) returns (data: seq<nat>, failed: bool, woken: seq<Side>)
      requires Valid()
      modifies this`head, this`queue, this`returned
      ensures Valid() && failed == Writes(isOwner) && accepted == old(accepted)
      ensures failed ==> data == []
      ensures !failed ==> |data| == (if length < |old(Contents())| then length else |old(Contents())|)
      ensures data + Contents() == old(Contents()) && returned == old(returned) + data
      ensures woken == if data != [] && |old(Contents())| == limit - 1 then old(queue) else []
      ensures queue == if woken == [] then old(queue) else []
    {
      hide *;
      Facts();
      data, woken := [], [];
      failed := isOwner == ownerWrites;
      WritesIs(isOwner);
      NothingMoved(Ring(buffer[..], head, tail), returned);
      if failed {
        return;
      }
      FullMeans(buffer[..], head, tail);
      FullIs(head, tail, limit);
      var needNotify := (tail + 1) % limit == head;
      data := TakeBytes(length);
      RangeFacts();
      FullMeans(buffer[..], head, tail);
      if data != [] && needNotify {
        woken, queue := queue, [];
      }
      QueueMoves(old(queue), old(head) == tail, IsFull(old(head), tail, limit), queue, head == tail,
          IsFull(head, tail, limit));
      Regroup(old(returned), data, Ring(buffer[..], head, tail));
      BecomesValid();
    }

    /** The loop of read. */
    method TakeBytes(length: nat) returns (data: seq<nat>)
      requires InRange()
      modifies this`head, this`returned
      ensures InRange() && data + Ring(buffer[..], head, tail) == old(Ring(buffer[..], head, tail))
      ensures returned == old(returned) + data && (data == [] ==> head == old(head))
      ensures |data| <= length && (|data| < length ==> head == tail)
    {
      hide *;
      RangeFacts();
      data := [];
      ghost var b := buffer[..];
      ghost var was := Ring(b, head, tail);
      NothingMoved(was, returned);
      while |data| < length
        invariant head < limit && |data| <= length
        invariant data + Ring(b, head, tail) == was && returned == old(returned) + data
        invariant data == [] ==> head == old(head)
        decreases length - |data|
      {
        if head == tail {
          break;
        }
        RingTakes(b, head, tail);
        StepIs(head, limit);
        MoveOver(data, b[head], Ring(b, head, tail), old(returned), Ring(b, Step(head, limit), tail));
        returned := returned + [buffer[head]];
        data := data + [buffer[head]];
        head := head + 1;
        if head == limit {
          head := 0;
        }
      }
      BecomesRange();
    }

    method Write(source: seq<nat>, isOwner: bool) returns (count: nat, failed: bool, woken: seq<Side>)
      requires Valid()
      modifies this`tail, this`queue, this`accepted, buffer
      ensures Valid() && failed == !Writes(isOwner) && returned == old(returned)
      ensures failed ==> count == 0
      ensures count <= |source| && Contents() == old(Contents()) + source[..count]
        && accepted == old(accepted) + source[..count]
      ensures !failed && !atomicWrite ==>
        count == if |source| < limit - 1 - |old(Contents())| then |source| else limit - 1 - |old(Contents())|
      ensures !failed && atomicWrite ==>
        count == if |source| <= Available(old(head), old(tail), limit) then |source| else 0
      ensures woken == if count > 0 && old(Contents()) == [] then old(queue) else []
      ensures queue == if woken == [] then old(queue) else []
    {
      hide *;
      Facts();
      count, woken := 0, [];
      failed := isOwner != ownerWrites;
      WritesIs(isOwner);
      ghost var was := Ring(buffer[..], head, tail);
      Room(buffer[..], head, tail);
      AvailableUnfolds(head, tail, limit);
      NothingMoved(was, accepted);
      NothingTaken(source);
      if failed {
        return;
      }
      if atomicWrite {
        var available := (((head + limit) % WORD - tail - 1) % WORD) % limit;
        if available < |source| {
          return;
        }
      }
      count, woken := PutAndWake(source);
    }

    /** Writes as much as there is room for, and wakes all waiters if the pipe was empty. */
    method PutAndWake(source: seq<nat>) returns (count: nat, woken: seq<Side>)
      requires Valid()
      modifies this`tail, this`queue, this`accepted, buffer
      ensures Valid()
      ensures count == if |source| < limit - 1 - |old(Contents())| then |source| else limit - 1 - |old(Contents())|
      ensures 0 <= count <= |source| && Contents() == old(Contents()) + source[..count]
        && accepted == old(accepted) + source[..count]
      ensures woken == if count > 0 && old(Contents()) == [] then old(queue) else []
      ensures queue == if woken == [] then old(queue) else []
    {
      hide *;
      Facts();
      ghost var was := Ring(buffer[..], head, tail);
      FullMeans(buffer[..], head, tail);
      FullIs(head, tail, limit);
      var needNotify := head == tail;
      count := PutBytes(source);
      RangeFacts();
      FullMeans(buffer[..], head, tail);
      woken := [];
      if count > 0 && needNotify {
        woken, queue := queue, [];
      }
      QueueMoves(old(queue), head == old(tail), IsFull(head, old(tail), limit), queue, head == tail,
          IsFull(head, tail, limit));
      Regroup(returned, was, source[..count]);
      BecomesValid();
    }

    /** The loop of write. */
    method PutBytes(source: seq<nat>) returns (count: nat)
      requires InRange()
      modifies this`tail, this`accepted, buffer
      ensures InRange() && count <= |source|
      ensures Ring(buffer[..], head, tail) == old(Ring(buffer[..], head, tail)) + source[..count]
      ensures accepted == old(accepted) + source[..count] && (count == 0 ==> tail == old(tail))
      ensures count < |source| ==> IsFull(head, tail, limit)
    {
      hide *;
      RangeFacts();
      count := 0;
      ghost var b := buffer[..];
      ghost var was := Ring(b, head, tail);
      NothingMoved(was, accepted);
      NothingTaken(source);
      while count < |source|
        invariant tail < limit && count <= |source| && buffer[..] == b
        invariant Ring(b, head, tail) == was + source[..count] && accepted == old(accepted) + source[..count]
        invariant count == 0 ==> tail == old(tail)
      {
        FullMeans(b, head, tail);
        FullIs(head, tail, limit);
        if (tail + 1) % limit == head {
          break;
        }
        RingGives(b, head, tail, source[count]);
        StepIs(tail, limit);
        TakeOneMore(was, old(accepted), source, count);
        accepted := accepted + [source[count]];
        buffer[tail] := source[count];
        b := b[tail := source[count]];
        tail := tail + 1;
        if tail == limit {
          tail := 0;
        }
        count := count + 1;
      }
      BecomesRange();
    }

    lemma RangeFacts()
      requires InRange()
      ensures 0 < limit < WORD && buffer.Length == limit && head < limit && tail < limit
    {
    }

    lemma BecomesRange()
      requires 0 < limit < WORD && buffer.Length == limit && head < limit && tail < limit
      ensures InRange()
    {
    }

    lemma Facts()
      requires Valid()
      ensures InRange() && 0 < limit < WORD && buffer.Length == limit && head < limit && tail < limit
      ensures Contents() == Ring(buffer[..], head, tail) && accepted == returned + Ring(buffer[..], head, tail)
      ensures QueueOk(queue, head == tail, IsFull(head, tail, limit))
    {
    }

    lemma BecomesValid()
      requires 0 < limit < WORD && buffer.Length == limit && head < limit && tail < limit
      requires accepted == returned + Ring(buffer[..], head, tail)
      requires QueueOk(queue, head == tail, IsFull(head, tail, limit))
      ensures Valid() && Contents() == Ring(buffer[..], head, tail)
    {
    }

    lemma WritesIs(isOwner: bool)
      ensures Writes(isOwner) == (isOwner == ownerWrites)
    {
    }

    /** A waiting reader means there is nothing to read, a waiting writer that there
        is no room; and the bytes read are the first of the bytes written. */
    lemma NobodyWaitsInVain()
      requires Valid()
      ensures READER in queue ==> Contents() == []
      ensures WRITER in queue ==> |Contents()| == limit - 1
      ensures returned <= accepted
    {
      FullMeans(buffer[..], head, tail);
    }
  }
}
