/** The buddy heap (util/include/buddy_heap.hpp): free blocks of 2^bot up to
    2^(top - 1) bytes, kept in one doubly linked list for each size. The links
    stand in the free blocks themselves.

    Addresses are naturals, with 0 for the null pointer. */
module BuddyHeaps {
  import opened PowersOfTwo
  import opened BuddyLists

  datatype Node = Node(prev: nat, next: nat)
  type Memory = map<nat, Node>

  /** A region of fresh memory, as the expander returns it; base 0 says it found none. */
  datatype Region = Region(base: nat, len: nat)

  // ---------------------------------------------------------------------
  // A list in memory
  // ---------------------------------------------------------------------

  function Elem(s: seq<nat>, i: int): nat {
    if 0 <= i < |s| then s[i] else 0
  }

  predicate NodeAt(mem: Memory, s: seq<nat>, i: nat) {
    i < |s| && s[i] in mem && mem[s[i]] == Node(Elem(s, i - 1), Elem(s, i + 1))
  }

  ghost predicate Linked(mem: Memory, s: seq<nat>) {
    forall i: nat :: i < |s| ==> NodeAt(mem, s, i)
  }

  ghost predicate AllLinked(mem: Memory, L: Lists) {
    forall k: nat :: k < |L| ==> Linked(mem, L[k])
  }

  ghost predicate HeadsOf(pool: seq<nat>, L: Lists) {
    |pool| == |L| && forall k: nat :: k < |L| ==> pool[k] == Elem(L[k], 0)
  }

  function WithNext(mem: Memory, a: nat, next: nat): Memory {
    if a != 0 && a in mem then mem[a := Node(mem[a].prev, next)] else mem
  }

  function WithPrev(mem: Memory, a: nat, prev: nat): Memory {
    if a != 0 && a in mem then mem[a := Node(prev, mem[a].next)] else mem
  }

  ghost predicate Positive(s: seq<nat>) {
    forall i: nat :: i < |s| ==> s[i] > 0
  }

  function Bridge(mem: Memory, s: seq<nat>, i: nat): Memory {
    WithNext(WithPrev(mem, Elem(s, i + 1), Elem(s, i - 1)), Elem(s, i - 1), Elem(s, i + 1))
  }

  function Splice(mem: Memory, s: seq<nat>, i: nat, b: nat): Memory {
    WithNext(WithPrev(mem[b := Node(Elem(s, i - 1), Elem(s, i))], Elem(s, i), b), Elem(s, i - 1), b)
  }

  lemma ElemCut(s: seq<nat>, i: nat, j: int)
    requires i < |s|
    ensures Elem(s[..i] + s[i + 1..], j) == Elem(s, if j < i then j else j + 1)
  {
  }

  lemma ElemPaste(s: seq<nat>, i: nat, b: nat, j: int)
    requires i <= |s|
    ensures Elem(s[..i] + [b] + s[i..], j) == if j < i then Elem(s, j) else if j == i then b else Elem(s, j - 1)
  {
  }

  lemma BridgeAt(mem: Memory, s: seq<nat>, i: nat, o: nat)
    requires Linked(mem, s) && Ordered(s) && Positive(s) && i < |s| && o < |s| && o != i
    ensures s[o] in Bridge(mem, s, i)
    ensures Bridge(mem, s, i)[s[o]].prev == if o == i + 1 then Elem(s, i - 1) else Elem(s, o - 1)
    ensures Bridge(mem, s, i)[s[o]].next == if o + 1 == i then Elem(s, i + 1) else Elem(s, o + 1)
  {
    assert NodeAt(mem, s, o);
    assert i > 0 ==> NodeAt(mem, s, i - 1);
    assert i + 1 < |s| ==> NodeAt(mem, s, i + 1);
  }

  lemma BridgeLinks(mem: Memory, s: seq<nat>, i: nat)
    requires Linked(mem, s) && Ordered(s) && Positive(s) && i < |s|
    ensures Linked(Bridge(mem, s, i), s[..i] + s[i + 1..])
  {
    hide Bridge, Ordered, Positive, Elem;
    var t := s[..i] + s[i + 1..];
    forall j: nat | j < |t| ensures NodeAt(Bridge(mem, s, i), t, j) {
      var o := if j < i then j else j + 1;
      assert t[j] == s[o];
      BridgeAt(mem, s, i, o);
      ElemCut(s, i, j - 1);
      ElemCut(s, i, j + 1);
    }
  }

  lemma SpliceAt(mem: Memory, s: seq<nat>, i: nat, b: nat, o: nat)
    requires Linked(mem, s) && Ordered(s) && Positive(s) && Place(s, i, b) && o < |s|
    ensures s[o] in Splice(mem, s, i, b)
    ensures Splice(mem, s, i, b)[s[o]].prev == if o == i then b else Elem(s, o - 1)
    ensures Splice(mem, s, i, b)[s[o]].next == if o + 1 == i then b else Elem(s, o + 1)
  {
    PlaceSplits(s, i, b, o);
    assert NodeAt(mem, s, o);
    assert i > 0 ==> NodeAt(mem, s, i - 1);
    assert i < |s| ==> NodeAt(mem, s, i);
  }

  lemma SpliceNew(mem: Memory, s: seq<nat>, i: nat, b: nat)
    requires Place(s, i, b)
    ensures b in Splice(mem, s, i, b) && Splice(mem, s, i, b)[b] == Node(Elem(s, i - 1), Elem(s, i))
  {
  }

  lemma SpliceLinks(mem: Memory, s: seq<nat>, i: nat, b: nat)
    requires Linked(mem, s) && Ordered(s) && Positive(s) && Place(s, i, b) && i <= |s|
    ensures Linked(Splice(mem, s, i, b), s[..i] + [b] + s[i..])
  {
    hide Splice, Ordered, Positive, Elem, Place;
    var t := s[..i] + [b] + s[i..];
    forall j: nat | j < |t| ensures NodeAt(Splice(mem, s, i, b), t, j) {
      ElemPaste(s, i, b, j - 1);
      ElemPaste(s, i, b, j + 1);
      if j == i {
        SpliceNew(mem, s, i, b);
      } else {
        var o := if j < i then j else j - 1;
        assert t[j] == s[o];
        SpliceAt(mem, s, i, b, o);
      }
    }
  }

  /** Writing only to blocks that are not in the list leaves it linked. */
  ghost predicate SameExcept(mem: Memory, m: Memory, s: seq<nat>, b: nat) {
    forall a: nat :: a in mem && a !in s && a != b ==> a in m && m[a] == mem[a]
  }

  lemma OtherListLinked(mem: Memory, m: Memory, s: seq<nat>, b: nat, t: seq<nat>)
    requires Linked(mem, t) && SameExcept(mem, m, s, b)
    requires b !in t && forall a :: a in t ==> a !in s
    ensures Linked(m, t)
  {
    forall i: nat | i < |t| ensures NodeAt(m, t, i) {
      assert NodeAt(mem, t, i);
    }
  }

  lemma ShareNothing(L: Lists, bot: nat, k: nat, l: nat)
    requires Apart(L, bot) && k < |L| && l < |L| && k != l
    ensures forall a :: a in L[l] ==> a !in L[k]
  {
    forall a | a in L[l] && a in L[k] ensures false {
      assert Has(L, l, a) && Has(L, k, a);
      ApartAt(L, bot, k, a, l, a);
    }
  }

  lemma ListsPositive(L: Lists, bot: nat, k: nat)
    requires Shaped(L, bot) && k < |L|
    ensures Ordered(L[k]) && Positive(L[k])
    ensures forall i: nat :: i < |L[k]| ==> Aligned(L[k][i], bot + k) && Has(L, k, L[k][i])
  {
    forall i: nat | i < |L[k]| ensures L[k][i] > 0 && Aligned(L[k][i], bot + k) && Has(L, k, L[k][i]) {
      assert Has(L, k, L[k][i]);
    }
  }

  lemma BridgeAll(mem: Memory, L: Lists, bot: nat, k: nat, i: nat)
    requires AllLinked(mem, L) && WellFormed(L, bot) && k < |L| && i < |L[k]|
    ensures AllLinked(Bridge(mem, L[k], i), Cut(L, k, i))
  {
    ListsPositive(L, bot, k);
    BridgeLinks(mem, L[k], i);
    forall l: nat | l < |L| && l != k ensures Linked(Bridge(mem, L[k], i), L[l]) {
      ShareNothing(L, bot, k, l);
      OtherListLinked(mem, Bridge(mem, L[k], i), L[k], 0, L[l]) by {
        ListsPositive(L, bot, l);
      }
    }
  }

  lemma SpliceAll(mem: Memory, L: Lists, bot: nat, k: nat, i: nat, b: nat)
    requires AllLinked(mem, L) && WellFormed(L, bot) && k < |L| && Place(L[k], i, b)
    requires NoneFree(L, bot, b, Size(bot, k))
    ensures AllLinked(Splice(mem, L[k], i, b), Paste(L, k, i, b))
  {
    ListsPositive(L, bot, k);
    SpliceLinks(mem, L[k], i, b);
    forall l: nat | l < |L| && l != k ensures Linked(Splice(mem, L[k], i, b), L[l]) {
      ShareNothing(L, bot, k, l);
      NotListed(L, bot, b, Size(bot, k), l);
      OtherListLinked(mem, Splice(mem, L[k], i, b), L[k], b, L[l]);
    }
  }

  lemma NotListed(L: Lists, bot: nat, b: nat, n: nat, l: nat)
    requires NoneFree(L, bot, b, n) && n > 0 && l < |L|
    ensures b !in L[l]
  {
    assert InFree(L, bot, b) <== Has(L, l, b) by {
      assert Within(b, Size(bot, l), b);
    }
    assert Within(b, n, b);
  }

  /** Only blocks that are free before or after are written to. */
  ghost predicate KeepsUsed(mem: Memory, m: Memory, L: Lists, M: Lists, bot: nat) {
    forall a: nat :: !InFree(L, bot, a) && !InFree(M, bot, a) ==>
      (a in m <==> a in mem) && (a in m ==> m[a] == mem[a])
  }

  lemma ElemFree(L: Lists, bot: nat, k: nat, i: int)
    requires k < |L|
    ensures Elem(L[k], i) != 0 ==> InFree(L, bot, Elem(L[k], i))
  {
    if 0 <= i < |L[k]| {
      assert Has(L, k, L[k][i]) && Within(L[k][i], Size(bot, k), L[k][i]);
    }
  }

  lemma BridgeKeeps(mem: Memory, L: Lists, M: Lists, bot: nat, k: nat, i: nat)
    requires k < |L| && i < |L[k]|
    ensures KeepsUsed(mem, Bridge(mem, L[k], i), L, M, bot)
  {
    ElemFree(L, bot, k, i - 1);
    ElemFree(L, bot, k, i + 1);
  }

  lemma SpliceKeeps(mem: Memory, L: Lists, M: Lists, bot: nat, k: nat, i: nat, b: nat)
    requires k < |L| && i <= |L[k]| && InFree(M, bot, b)
    ensures KeepsUsed(mem, Splice(mem, L[k], i, b), L, M, bot)
  {
    ElemFree(L, bot, k, i - 1);
    ElemFree(L, bot, k, i);
  }

  // ---------------------------------------------------------------------
  // The state between two steps, as one predicate
  // ---------------------------------------------------------------------

  ghost predicate Consistent(pool: seq<nat>, mem: Memory, L: Lists, bot: nat) {
    WellFormed(L, bot) && AllLinked(mem, L) && HeadsOf(pool, L)
  }

  /** Bridging over entry i, with the head moved when i is the first. */
  lemma CutConsistent(pool: seq<nat>, mem: Memory, L: Lists, bot: nat, k: nat, i: nat)
    requires Consistent(pool, mem, L, bot) && k < |L| && i < |L[k]|
    ensures Consistent(if i == 0 then pool[k := Elem(L[k], 1)] else pool, Bridge(mem, L[k], i), Cut(L, k, i), bot)
  {
    hide AllLinked, WellFormed, Bridge;
    CutKeeps(L, bot, k, i);
    BridgeAll(mem, L, bot, k, i);
  }

  lemma PasteConsistent(pool: seq<nat>, mem: Memory, L: Lists, bot: nat, k: nat, i: nat, b: nat)
    requires Consistent(pool, mem, L, bot) && k < |L| && Place(L[k], i, b)
    requires b > 0 && Aligned(b, bot + k) && NoneFree(L, bot, b, Size(bot, k))
    requires k + 1 < |L| ==> NoBuddy(L, bot, k, b)
    ensures Consistent(if i == 0 then pool[k := b] else pool, Splice(mem, L[k], i, b), Paste(L, k, i, b), bot)
  {
    hide AllLinked, WellFormed, Splice, NoneFree, NoBuddy, Aligned;
    PasteKeeps(L, bot, k, i, b);
    SpliceAll(mem, L, bot, k, i, b);
  }

  lemma PasteGives(L: Lists, bot: nat, k: nat, i: nat, b: nat)
    requires WellFormed(L, bot) && k < |L| && Place(L[k], i, b)
    requires b > 0 && Aligned(b, bot + k) && NoneFree(L, bot, b, Size(bot, k))
    requires k + 1 < |L| ==> NoBuddy(L, bot, k, b)
    ensures Given(L, Paste(L, k, i, b), bot, b, Size(bot, k))
  {
    hide WellFormed, NoneFree, NoBuddy, Aligned, InFree;
    PasteKeeps(L, bot, k, i, b);
  }

  lemma CutTakes(L: Lists, bot: nat, k: nat, i: nat)
    requires WellFormed(L, bot) && k < |L| && i < |L[k]|
    ensures Taken(L, Cut(L, k, i), bot, L[k][i], Size(bot, k))
  {
    hide WellFormed, InFree;
    CutKeeps(L, bot, k, i);
    ListedIsFree(L, bot, k, L[k][i]);
  }

  /** Taking the buddy out and giving the joined block back gives the block back. */
  lemma JoinGives(L: Lists, M: Lists, N: Lists, bot: nat, a: nat, b: nat, n: nat)
    requires Taken(L, M, bot, a, n) && NoneFree(L, bot, b, n)
    requires a == b + n || b == a + n
    ensures NoneFree(M, bot, Lower(a, b), n + n)
    ensures Given(M, N, bot, Lower(a, b), n + n) ==> Given(L, N, bot, b, n)
  {
    hide WellFormed, InFree;
    forall x | Lower(a, b) <= x < Lower(a, b) + n + n ensures !InFree(M, bot, x) {
      assert Within(a, n, x) || Within(b, n, x);
    }
    assert forall x: nat :: Within(Lower(a, b), n + n, x) <==> Within(a, n, x) || Within(b, n, x);
  }

  /** Taking a whole block and giving its upper half back takes the lower half. */
  lemma SplitTakes(L: Lists, M: Lists, N: Lists, bot: nat, a: nat, n: nat)
    requires Taken(L, M, bot, a, n + n)
    ensures NoneFree(M, bot, a + n, n)
    ensures Given(M, N, bot, a + n, n) ==> Taken(L, N, bot, a, n)
  {
    hide WellFormed, InFree;
    assert forall x: nat :: Within(a, n + n, x) <==> Within(a, n, x) || Within(a + n, n, x);
    forall x | a + n <= x < a + n + n ensures !InFree(M, bot, x) {
      assert Within(a + n, n, x);
    }
  }

  lemma KeepsJoin(m0: Memory, m1: Memory, m2: Memory, L: Lists, M: Lists, N: Lists, bot: nat, a: nat, n: nat)
    requires Taken(L, M, bot, a, n)
    requires KeepsUsed(m0, m1, L, M, bot) && KeepsUsed(m1, m2, M, N, bot)
    ensures KeepsUsed(m0, m2, L, N, bot)
  {
    hide WellFormed, InFree, AllFree;
  }

  // ---------------------------------------------------------------------
  // Size classes
  // ---------------------------------------------------------------------

  /** Order sh serves requests of sz bytes and no smaller order does. */
  predicate Fits(bot: nat, sz: nat, sh: nat) {
    sz <= Pow2(sh) && (sh > bot ==> Pow2(sh - 1) < sz)
  }

  /** The least order from sh on whose blocks hold sz bytes, searched upwards. */
  function Order(sh: nat, top: nat, sz: nat): (r: nat)
    ensures sh <= top ==> sh <= r <= top
    ensures r < top ==> sz <= Pow2(r)
    decreases top - sh
  {
    if sh >= top || sz <= Pow2(sh) then sh else Order(sh + 1, top, sz)
  }

  /** The order that fits is the least one. */
  lemma {:induction false} FitsIsOrder(bot: nat, top: nat, sz: nat, sh: nat)
    requires bot <= sh <= top && (sh < top ==> sz <= Pow2(sh)) && (sh > bot ==> Pow2(sh - 1) < sz)
    ensures Order(bot, top, sz) == sh
    decreases sh - bot
  {
    if bot < sh {
      PowerDivides(bot, sh - 1);
      if bot + 1 < sh {
        PowerDivides(bot, sh - 1);
      }
      FitsIsOrder(bot + 1, top, sz, sh);
    }
  }

  /** The order of the smallest block that holds sz bytes; top if even the
      largest is too small. */
  method Category(bot: nat, top: nat, sz: nat) returns (sh: nat)
    requires bot < top && sz > 0
    ensures bot <= sh <= top
    ensures sh < top ==> Fits(bot, sz, sh)
    ensures sh == top <==> sz > Pow2(top - 1)
    ensures sh == Order(bot, top, sz)
  {
    sh := CategoryLoop(bot, top, sz);
    FitsIsOrder(bot, top, sz, sh);
  }

  method CategoryLoop(bot: nat, top: nat, sz: nat) returns (sh: nat)
    requires bot < top && sz > 0
    ensures bot <= sh <= top
    ensures sh < top ==> Fits(bot, sz, sh)
    ensures sh == top <==> sz > Pow2(top - 1)
  {
    if sz > Pow2(top - 1) {
      return top;
    }
    sh := top;
    while true
      invariant bot < sh <= top
      invariant if sh == top then sz <= Pow2(top - 1) else sz < Pow2(sh)
      decreases sh
    {
      Doubles(sh);
      sh := sh - 1;
      if sz / Pow2(sh) != 0 {
        LargeSize(sz, Pow2(sh));
        if sz % Pow2(sh) != 0 {
          sh := sh + 1;
        }
        if sh > bot {
          PowStrict(sh);
        }
        return;
      }
      SmallSize(sz, Pow2(sh));
      if sh <= bot {
        return;
      }
    }
  }

  /** The order of the largest block that can start at ptr and stay within len
      bytes; top if none can. */
  method CategoryAt(bot: nat, top: nat, ptr: nat, len: nat) returns (sh: nat)
    requires bot < top && ptr > 0 && len > 0
    ensures bot <= sh <= top
    ensures sh < top ==> Aligned(ptr, sh) && Pow2(sh) <= len
    ensures sh + 1 < top ==> !Aligned(ptr, sh + 1) || len < Pow2(sh + 1)
    ensures sh == top <==> !Aligned(ptr, bot) || len < Pow2(bot)
  {
    sh := top;
    var cur := bot;
    while cur < top
      invariant bot <= cur <= top
      invariant cur == bot ==> sh == top
      invariant cur > bot ==> sh == cur - 1 && Aligned(ptr, sh) && Pow2(sh) <= len
      invariant cur > bot ==> Aligned(ptr, bot) && Pow2(bot) <= len
    {
      if ptr % Pow2(cur) != 0 {
        break;
      }
      if len < Pow2(cur) {
        break;
      }
      sh := cur;
      cur := cur + 1;
    }
  }

  lemma LargeSize(sz: nat, p: nat)
    requires p > 0 && sz / p != 0 && sz < 2 * p
    ensures p <= sz
    ensures sz % p == 0 ==> sz == p
    ensures sz % p != 0 ==> p < sz < 2 * p
  {
  }

  lemma SmallSize(sz: nat, p: nat)
    requires p > 0 && sz / p == 0
    ensures sz < p
  {
  }

  lemma PowStrict(sh: nat)
    requires sh > 0
    ensures Pow2(sh - 1) < Pow2(sh)
  {
  }

  // ---------------------------------------------------------------------
  // Which block serves a request
  // ---------------------------------------------------------------------

  /** The first list from k on that is not empty; |L| if all are. */
  ghost function Server(L: Lists, k: nat): (r: nat)
    ensures k <= |L| ==> k <= r <= |L|
    ensures k <= r < |L| ==> L[r] != [] && forall l :: k <= l < r ==> L[l] == []
    ensures k <= |L| == r ==> forall l :: k <= l < |L| ==> L[l] == []
    decreases |L| - k
  {
    if k >= |L| || L[k] != [] then k else Server(L, k + 1)
  }

  /** The lowest block of the first list that can serve order k; 0 if none can. */
  ghost function Served(L: Lists, k: nat): nat {
    var l := Server(L, k);
    if l < |L| then Elem(L[l], 0) else 0
  }

  lemma ServedHere(L: Lists, k: nat)
    requires k < |L|
    ensures L[k] != [] ==> Served(L, k) == L[k][0]
    ensures L[k] == [] ==> Served(L, k) == Served(L, k + 1)
  {
  }

  lemma ServedNowhere(L: Lists, k: nat)
    requires k >= |L|
    ensures Served(L, k) == 0
  {
  }

  lemma {:induction false} ServedIsNull(L: Lists, bot: nat, k: nat)
    requires Shaped(L, bot) && k <= |L|
    ensures Served(L, k) == 0 <==> forall l :: k <= l < |L| ==> L[l] == []
  {
    if Server(L, k) < |L| {
      ListsPositive(L, bot, Server(L, k));
    }
  }

  lemma BeforeFirst(s: seq<nat>)
    ensures Elem(s, 0 - 1) == 0
  {
  }

  lemma FirstPlace(s: seq<nat>, i: nat, b: nat)
    requires i <= |s| && (i > 0 ==> s[i - 1] < b) && (i < |s| ==> b <= s[i]) && b !in s
    ensures Place(s, i, b)
  {
  }

  // ---------------------------------------------------------------------
  // The blocks in use
  // ---------------------------------------------------------------------

  ghost function LiveBytes(live: set<Block>): nat {
    if live == {} then 0 else
      var b :| b in live;
      Pow2(b.order) + LiveBytes(live - {b})
  }

  lemma {:induction false} LiveBytesWithout(live: set<Block>, b: Block)
    requires b in live
    ensures LiveBytes(live) == Pow2(b.order) + LiveBytes(live - {b})
  {
    var c :| c in live && LiveBytes(live) == Pow2(c.order) + LiveBytes(live - {c});
    if c != b {
      LiveBytesWithout(live - {c}, b);
      LiveBytesWithout(live - {b}, c);
      assert live - {c} - {b} == live - {b} - {c};
    }
  }

  /** Blocks in use are aligned, not free and do not overlap. */
  ghost predicate LiveApart(L: Lists, bot: nat, top: nat, live: set<Block>) {
    && (forall b :: b in live ==> LiveAt(L, bot, top, b))
    && forall b, c :: b in live && c in live && b != c ==> Disjoint(b.at, Pow2(b.order), c.at, Pow2(c.order))
  }

  ghost predicate LiveAt(L: Lists, bot: nat, top: nat, b: Block) {
    bot <= b.order < top && b.at > 0 && Aligned(b.at, b.order) && NoneFree(L, bot, b.at, Pow2(b.order))
  }

  /** The heap owns nothing of the region. */
  ghost predicate Fresh(L: Lists, bot: nat, live: set<Block>, r: Region) {
    r.base > 0 && r.len > 0 ==>
      && NoneFree(L, bot, r.base, r.len)
      && forall b :: b in live ==> Disjoint(b.at, Pow2(b.order), r.base, r.len)
  }

  ghost predicate RegionsApart(r: Region, q: Region) {
    r.base > 0 && r.len > 0 && q.base > 0 && q.len > 0 ==> Disjoint(r.base, r.len, q.base, q.len)
  }

  /** What the expander will hand out is fresh and does not overlap. */
  ghost predicate SupplyFresh(L: Lists, bot: nat, live: set<Block>, supply: seq<Region>) {
    && (forall i :: 0 <= i < |supply| ==> Fresh(L, bot, live, supply[i]))
    && forall i, j :: 0 <= i < j < |supply| ==> RegionsApart(supply[i], supply[j])
  }

  ghost predicate ApartFromAll(r: Region, supply: seq<Region>) {
    forall i :: 0 <= i < |supply| ==> RegionsApart(r, supply[i])
  }

  /** Free bytes and bytes in use make up the capacity, and nothing overlaps. */
  ghost predicate Account(L: Lists, bot: nat, top: nat, live: set<Block>, capSize: nat, supply: seq<Region>) {
    && LiveApart(L, bot, top, live)
    && Bytes(L, bot) + LiveBytes(live) == capSize
    && SupplyFresh(L, bot, live, supply)
  }

  lemma AccountTake(L: Lists, M: Lists, bot: nat, top: nat, live: set<Block>, capSize: nat, supply: seq<Region>,
      b: Block)
    requires Account(L, bot, top, live, capSize, supply)
    requires Taken(L, M, bot, b.at, Pow2(b.order)) && Bytes(L, bot) == Bytes(M, bot) + Pow2(b.order)
    requires bot <= b.order < top && b.at > 0 && Aligned(b.at, b.order)
    ensures b !in live && Account(M, bot, top, live + {b}, capSize, supply)
  {
    hide Taken, Given, AllFree, NoneFree, Bytes, InFree, Aligned, Pow2, Disjoint;
    TakenIs(L, M, bot, b.at, Pow2(b.order));
    forall c | c in live ensures Disjoint(b.at, Pow2(b.order), c.at, Pow2(c.order)) && LiveAt(M, bot, top, c) {
      FreeIsApart(L, bot, b.at, Pow2(b.order), c.at, Pow2(c.order));
      TakenElsewhere(L, M, bot, b.at, Pow2(b.order), c.at, Pow2(c.order));
    }
    DisjointFacts();
    NothingNone(L, bot, b.at);
    TakenElsewhere(L, M, bot, b.at, Pow2(b.order), b.at, 0);
    LiveBytesWithout(live + {b}, b);
    assert live + {b} - {b} == live;
    forall i | 0 <= i < |supply| ensures Fresh(M, bot, live + {b}, supply[i]) {
      var r := supply[i];
      if r.base > 0 && r.len > 0 {
        FreeIsApart(L, bot, b.at, Pow2(b.order), r.base, r.len);
        TakenElsewhere(L, M, bot, b.at, Pow2(b.order), r.base, r.len);
      }
    }
  }

  lemma AccountGive(L: Lists, M: Lists, bot: nat, top: nat, live: set<Block>, capSize: nat, supply: seq<Region>,
      b: Block)
    requires Account(L, bot, top, live, capSize, supply) && b in live
    requires Given(L, M, bot, b.at, Pow2(b.order)) && Bytes(M, bot) == Bytes(L, bot) + Pow2(b.order)
    ensures Account(M, bot, top, live - {b}, capSize, supply)
  {
    hide Taken, Given, AllFree, NoneFree, Bytes, InFree, Aligned, Pow2, Disjoint;
    LiveBytesWithout(live, b);
    forall c | c in live - {b} ensures LiveAt(M, bot, top, c) {
      GivenElsewhere(L, M, bot, b.at, Pow2(b.order), c.at, Pow2(c.order));
    }
    forall i | 0 <= i < |supply| ensures Fresh(M, bot, live - {b}, supply[i]) {
      var r := supply[i];
      if r.base > 0 && r.len > 0 {
        GivenElsewhere(L, M, bot, b.at, Pow2(b.order), r.base, r.len);
      }
    }
  }

  lemma AccountGrow(L: Lists, M: Lists, bot: nat, top: nat, live: set<Block>, capSize: nat, supply: seq<Region>,
      r: Region, a: nat, n: nat)
    requires Account(L, bot, top, live, capSize, supply)
    requires r.base > 0 && r.len > 0 && Fresh(L, bot, live, r) && ApartFromAll(r, supply)
    requires r.base <= a && a + n <= r.base + r.len
    requires Given(L, M, bot, a, n) && Bytes(M, bot) == Bytes(L, bot) + n
    ensures Account(M, bot, top, live, capSize + n, supply)
  {
    hide Taken, Given, AllFree, NoneFree, Bytes, InFree, Aligned, Pow2;
    forall c | c in live ensures LiveAt(M, bot, top, c) {
      GivenElsewhere(L, M, bot, a, n, c.at, Pow2(c.order));
    }
    forall i | 0 <= i < |supply| ensures Fresh(M, bot, live, supply[i]) {
      var q := supply[i];
      assert RegionsApart(r, q);
      if q.base > 0 && q.len > 0 {
        GivenElsewhere(L, M, bot, a, n, q.base, q.len);
      }
    }
  }

  lemma TakenIs(L: Lists, M: Lists, bot: nat, a: nat, n: nat)
    requires Taken(L, M, bot, a, n)
    ensures AllFree(L, bot, a, n) && WellFormed(M, bot)
  {
  }

  lemma DisjointFacts()
    ensures forall a: nat, m: nat, b: nat, n: nat :: Disjoint(a, m, b, n) ==> Disjoint(b, n, a, m)
    ensures forall a: nat, m: nat :: m > 0 ==> !Disjoint(a, m, a, m)
  {
  }

  lemma NothingNone(L: Lists, bot: nat, a: nat)
    ensures NoneFree(L, bot, a, 0)
  {
  }

  // ---------------------------------------------------------------------
  // The heap
  // ---------------------------------------------------------------------

  class BuddyHeap {
    const bot: nat
    const top: nat
    const hasCallback: bool
    const pool: array<nat>
    var mem: Memory
    var capSize: nat
    var supply: seq<Region>   // what the expander will answer, in order
    ghost var asks: seq<nat>  // the sizes it was asked for so far
    ghost var L: Lists
    ghost var live: set<Block>

    ghost predicate Valid()
      reads this`mem, this`L, pool
    {
      && 4 <= bot < top && |L| == top - bot
      && Consistent(pool[..], mem, L, bot)
    }

    /** The whole heap: valid lists and a balanced account. */
    ghost predicate Sound()
      reads this, pool
    {
      Valid() && Account(L, bot, top, live, capSize, supply)
    }

    constructor (bot: nat, top: nat, hasCallback: bool, supply: seq<Region>)
      requires 4 <= bot < top && SupplyFresh([], bot, {}, supply)
      ensures Sound() && fresh(pool) && this.bot == bot && this.top == top
      ensures this.hasCallback == hasCallback && this.supply == supply && asks == []
      ensures capSize == 0 && live == {} && forall x: nat :: !InFree(L, bot, x)
    {
      this.bot, this.top, this.hasCallback, this.supply := bot, top, hasCallback, supply;
      asks := [];
      pool := new nat[top - bot](_ => 0);
      mem, capSize, live := map[], 0, {};
      L := seq(top - bot, _ => []);
      new;
      assert pool[..] == seq(top - bot, _ => 0);
      NoBytes(L, bot, 0);
      NothingFree(L, bot);
    }

    lemma ValidFacts()
      requires Valid()
      ensures 4 <= bot < top && |L| == top - bot == pool.Length && WellFormed(L, bot)
      ensures Consistent(pool[..], mem, L, bot)
      ensures forall k: nat :: k < |L| ==>
        pool[k] == Elem(L[k], 0) && Linked(mem, L[k]) && Ordered(L[k]) && Positive(L[k])
    {
      assert pool.Length == |pool[..]|;
      assert forall k: nat :: k < |L| ==> pool[k] == pool[..][k];
      forall k: nat | k < |L| ensures Ordered(L[k]) && Positive(L[k]) {
        ListsPositive(L, bot, k);
      }
    }

    /** The loop that finds the place of a block: right before the first entry
        that is not below it. */
    method FindPlace(k: nat, block: nat) returns (prev: nat, cur: nat, ghost i: nat)
      requires Valid() && k < |L| && block !in L[k]
      ensures Place(L[k], i, block) && prev == Elem(L[k], i - 1) && cur == Elem(L[k], i)
    {
      hide *;
      ValidFacts();
      ghost var s := L[k];
      cur, prev, i := pool[k], 0, 0;
      BeforeFirst(s);
      while cur != 0 && cur < block
        invariant i <= |s| && cur == Elem(s, i) && prev == Elem(s, i - 1)
        invariant i > 0 ==> s[i - 1] < block
        decreases |s| - i
      {
        InChain(mem, s, i);
        prev := cur;
        cur := mem[cur].next;
        i := i + 1;
      }
      InChain(mem, s, i);
      FirstPlace(s, i, block);
    }

    /** Bridges over the i-th block of list k. */
    method Unlink(k: nat, b: nat, ghost i: nat)
      requires Valid() && k < |L| && i < |L[k]| && L[k][i] == b
      modifies this`mem, this`L, pool
      ensures Valid()
      ensures L == Cut(old(L), k, i) && mem == Bridge(old(mem), old(L)[k], i)
    {
      hide *;
      ValidFacts();
      ghost var s := L[k];
      ghost var was := pool[..];
      Chained(mem, s, i);
      CutConsistent(pool[..], mem, L, bot, k, i);
      CutShape(L, k, i);
      var n := mem[b];
      if n.next != 0 {
        mem := mem[n.next := Node(n.prev, mem[n.next].next)];
      }
      if n.prev != 0 {
        mem := mem[n.prev := Node(mem[n.prev].prev, n.next)];
      } else {
        pool[k] := n.next;
      }
      BridgeIs(old(mem), s, i);
      L := Cut(L, k, i);
      assert pool[..] == if i == 0 then was[k := Elem(s, 1)] else was;
      BecomesValid();
    }

    /** Writes the links of a block and of its neighbours. */
    method Link(k: nat, prev: nat, cur: nat, b: nat, ghost i: nat)
      requires Valid() && k < |L| && Place(L[k], i, b) && prev == Elem(L[k], i - 1) && cur == Elem(L[k], i)
      requires b > 0 && Aligned(b, bot + k) && NoneFree(L, bot, b, Size(bot, k))
      requires k + 1 < |L| ==> NoBuddy(L, bot, k, b)
      modifies this`mem, this`L, pool
      ensures Valid()
      ensures L == Paste(old(L), k, i, b) && mem == Splice(old(mem), old(L)[k], i, b)
    {
      hide *;
      ValidFacts();
      ghost var s := L[k];
      ghost var was := pool[..];
      SplicePlace(mem, s, i, b);
      PasteConsistent(pool[..], mem, L, bot, k, i, b);
      PasteShape(L, k, i, b);
      mem := mem[b := Node(prev, cur)];
      if cur != 0 {
        mem := mem[cur := Node(b, mem[cur].next)];
      }
      if prev != 0 {
        mem := mem[prev := Node(mem[prev].prev, b)];
      } else {
        pool[k] := b;
      }
      SpliceIs(old(mem), s, i, b);
      L := Paste(L, k, i, b);
      assert pool[..] == if i == 0 then was[k := b] else was;
      BecomesValid();
    }

    /** Gives back the block of order sh at ptr, joined with its buddy as often as
        the buddy is free too. */
    method Put(ptr: nat, sh: nat) returns (ok: bool)
      requires Valid() && bot <= sh < top && ptr > 0
      requires Aligned(ptr, sh) ==> NoneFree(L, bot, ptr, Pow2(sh))
      modifies this`mem, this`L, pool
      ensures Valid()
      ensures ok <==> Aligned(ptr, sh)
      ensures !ok ==> L == old(L) && mem == old(mem) && pool[..] == old(pool[..])
      ensures ok ==> Given(old(L), L, bot, ptr, Pow2(sh)) && Bytes(L, bot) == Bytes(old(L), bot) + Pow2(sh)
      ensures KeepsUsed(old(mem), mem, old(L), L, bot)
      decreases top - sh
    {
      hide *;
      ValidFacts();
      AlignedIs(ptr, sh);
      if ptr % Pow2(sh) != 0 {
        NothingWritten(mem, L, bot);
        return false;
      }
      var k := sh - bot;
      SizeIs(bot, k);
      NotListed(L, bot, ptr, Pow2(sh), k);
      ghost var i: nat;
      var prev: nat, cur: nat;
      prev, cur, i := FindPlace(k, ptr);
      ghost var s := L[k];
      BuddyTest(L, bot, k, i, ptr);
      if sh + 1 < top {
        var buddy: nat := 0;
        ghost var m: nat := 0;
        if prev != 0 && Xor(prev, ptr) == Pow2(sh) {
          buddy, m := prev, i - 1;
        } else if cur != 0 && Xor(cur, ptr) == Pow2(sh) {
          buddy, m := cur, i;
        }
        if buddy != 0 {
          PickedIsBuddy(buddy, ptr, sh);
          JoinStep(old(mem), L, bot, k, m, ptr);
          Unlink(k, buddy, m);
          ghost var M := L;
          ghost var m1 := mem;
          ok := Put(if ptr < buddy then ptr else buddy, sh + 1);
          JoinDone(old(mem), m1, mem, old(L), M, L, bot, k, m, ptr);
          return;
        }
      }
      PasteGives(L, bot, k, i, ptr);
      PasteBytes(L, bot, k, i, ptr);
      GivenIsFree(L, Paste(L, k, i, ptr), bot, ptr, Pow2(sh));
      SpliceKeeps(mem, L, Paste(L, k, i, ptr), bot, k, i, ptr);
      Link(k, prev, cur, ptr, i);
      return true;
    }

    /** Takes a block of order sh, splitting a larger one if need be. */
    method Get(sh: nat) returns (ptr: nat)
      requires Valid() && bot <= sh
      modifies this`mem, this`L, pool
      ensures Valid()
      ensures ptr == Served(old(L), sh - bot)
      ensures ptr == 0 ==> L == old(L) && mem == old(mem) && pool[..] == old(pool[..])
      ensures ptr != 0 ==> sh < top && Aligned(ptr, sh) && Taken(old(L), L, bot, ptr, Pow2(sh))
      ensures ptr != 0 ==> Bytes(old(L), bot) == Bytes(L, bot) + Pow2(sh)
      ensures KeepsUsed(old(mem), mem, old(L), L, bot)
      decreases if sh < top then top - sh else 0
    {
      hide *;
      ValidFacts();
      NothingWritten(mem, L, bot);
      if sh >= top {
        ServedNowhere(L, sh - bot);
        return 0;
      }
      var k := sh - bot;
      SizeIs(bot, k);
      ServedHere(L, k);
      ghost var s := L[k];
      if pool[k] != 0 {
        InChain(mem, s, 0);
        TakeFirst(mem, L, bot, k);
        ghost var was := pool[..];
        CutConsistent(pool[..], mem, L, bot, k, 0);
        CutShape(L, k, 0);
        Chained(mem, s, 0);
        ptr := pool[k];
        var n := mem[ptr];
        if n.next != 0 {
          mem := mem[n.next := Node(0, mem[n.next].next)];
        }
        pool[k] := n.next;
        BridgeIs(old(mem), s, 0);
        L := Cut(L, k, 0);
        assert pool[..] == was[k := Elem(s, 1)];
        BecomesValid();
        return;
      }
      InChain(mem, s, 0);
      ptr := Get(sh + 1);
      if ptr == 0 {
        return;
      }
      ghost var M := L;
      ghost var m1 := mem;
      SplitStep(old(L), M, bot, sh, ptr);
      var ok := Put(ptr + Pow2(sh), sh);
      SplitTakes(old(L), M, L, bot, ptr, Pow2(sh));
      KeepsSplit(old(mem), m1, mem, old(L), M, L, bot, ptr, Pow2(sh));
    }

    /** Adds a region to the heap, cut into the largest blocks that start aligned. */
    method Expand(ptr: nat, len: nat) returns (res: bool)
      requires Sound() && Fresh(L, bot, live, Region(ptr, len)) && ApartFromAll(Region(ptr, len), supply)
      modifies this`mem, this`L, this`capSize, pool
      ensures Sound()
      ensures res <==> Usable(ptr, len, Pow2(bot)) > 0
      ensures !res ==> L == old(L)
      ensures capSize == old(capSize) + Usable(ptr, len, Pow2(bot))
      ensures Given(old(L), L, bot, AlignUp(ptr, Pow2(bot)), Usable(ptr, len, Pow2(bot)))
      ensures KeepsUsed(old(mem), mem, old(L), L, bot)
    {
      hide *;
      SoundFacts();
      ghost var unit := Pow2(bot);
      UsableFacts(ptr, len, unit);
      GivenNothing(L, bot, AlignUp(ptr, unit));
      NothingGiven(L, bot, ptr, len, unit);
      NothingWritten(mem, L, bot);
      if ptr == 0 || len == 0 {
        return false;
      }
      var aligned := AlignUp(ptr, Pow2(bot));
      if len <= aligned - ptr {
        return false;
      }
      var rest: nat := len - (aligned - ptr);
      var cur: nat := aligned;
      res := false;
      FreshIs(L, bot, live, ptr, len, aligned, rest);
      AlignedIs(aligned, bot);
      while rest >= Pow2(bot)
        invariant Valid() && cur >= aligned && cur + rest == ptr + len && aligned > 0
        invariant Aligned(cur, bot)
        invariant Given(old(L), L, bot, aligned, cur - aligned) && NoneFree(L, bot, cur, rest)
        invariant Bytes(L, bot) == Bytes(old(L), bot) + (cur - aligned)
        invariant capSize == old(capSize) + (cur - aligned)
        invariant live == old(live) && supply == old(supply)
        invariant res <==> cur > aligned
        invariant cur == aligned ==> L == old(L)
        invariant KeepsUsed(old(mem), mem, old(L), L, bot)
        decreases rest
      {
        var sh := CategoryAt(bot, top, cur, rest);
        if sh >= top {
          break;
        }
        var size := Pow2(sh);
        ghost var M := L;
        ghost var m1 := mem;
        PartNone(L, bot, cur, rest, size);
        var ok := Put(cur, sh);
        if !ok {
          res := false;
          break;
        }
        GivenJoin(old(L), M, L, bot, aligned, cur - aligned, size);
        GivenElsewhere(M, L, bot, cur, size, cur + size, rest - size) by {
          NextTo(cur, size, rest - size);
        }
        KeepsMore(old(mem), m1, mem, old(L), M, L, bot, cur, size);
        NextAligned(cur, bot, sh);
        cur := cur + size;
        rest := rest - size;
        capSize := capSize + size;
        res := true;
      }
      UsableIs(ptr, len, aligned, cur, rest, bot);
      AccountGrow(old(L), L, bot, top, live, old(capSize), supply, Region(ptr, len), aligned, cur - aligned);
      BecomesSound();
    }

    /** The expander: the next region of the supply, or none. */
    method CallBack(want: nat) returns (r: Region)
      requires Sound()
      modifies this`supply, this`asks
      ensures Sound() && asks == old(asks) + [want]
      ensures old(supply) == [] ==> r == Region(0, 0) && supply == []
      ensures old(supply) != [] ==> r == old(supply)[0] && supply == old(supply)[1..]
      ensures Fresh(L, bot, live, r) && ApartFromAll(r, supply)
    {
      asks := asks + [want];
      if supply == [] {
        return Region(0, 0);
      }
      r := supply[0];
      supply := supply[1..];
      assert ApartFromAll(r, supply) by {
        assert forall i :: 0 <= i < |supply| ==> supply[i] == old(supply)[i + 1];
      }
      assert SupplyFresh(L, bot, live, supply);
    }

    /** Asks the expander for a region and takes it in. */
    method Grow(req: nat) returns (ok: bool, r: Region)
      requires Sound()
      modifies this`mem, this`L, this`capSize, this`supply, this`asks, pool
      ensures Sound() && asks == old(asks) + [Max(req, Max(old(capSize), 0x4000))]
      ensures old(supply) == [] ==> !ok && supply == []
      ensures old(supply) != [] ==> r == old(supply)[0] && supply == old(supply)[1..]
      ensures ok <==> Usable(r.base, r.len, Pow2(bot)) > 0
      ensures !ok ==> L == old(L)
      ensures capSize == old(capSize) + Usable(r.base, r.len, Pow2(bot))
      ensures Given(old(L), L, bot, AlignUp(r.base, Pow2(bot)), Usable(r.base, r.len, Pow2(bot)))
    {
      hide *;
      SoundFacts();
      var newSize := Max(req, Max(capSize, 0x4000));
      r := CallBack(newSize);
      assert r == Region(r.base, r.len);
      UsableFacts(r.base, r.len, Pow2(bot));
      ok := Expand(r.base, r.len);
    }

    /** A block for req bytes, or 0. */
    method Allocate(req: nat) returns (ptr: nat)
      requires Sound() && req > 0
      modifies this`mem, this`L, this`capSize, this`supply, this`asks, this`live, pool
      ensures Sound()
      ensures Order(bot, top, req) == top ==>
        ptr == 0 && L == old(L) && capSize == old(capSize) && supply == old(supply) && asks == old(asks)
      ensures Order(bot, top, req) < top ==> AllocDid(Shape(old(L), old(capSize), old(supply), old(asks)),
          Shape(L, capSize, supply, asks), bot, Order(bot, top, req), req, hasCallback, ptr)
      ensures ptr == 0 ==> live == old(live)
      ensures ptr != 0 ==> Order(bot, top, req) < top && Block(ptr, Order(bot, top, req)) !in old(live)
      ensures ptr != 0 ==> live == old(live) + {Block(ptr, Order(bot, top, req))}
      ensures ptr == 0 && Order(bot, top, req) < top ==> Served(L, Order(bot, top, req) - bot) == 0
      ensures |supply| <= |old(supply)| && supply == old(supply)[|old(supply)| - |supply|..]
      ensures Order(bot, top, req) == top || !hasCallback || Served(old(L), Order(bot, top, req) - bot) != 0 ==>
        supply == old(supply) && capSize == old(capSize)
      ensures Order(bot, top, req) < top && Served(old(L), Order(bot, top, req) - bot) != 0 ==>
        ptr == Served(old(L), Order(bot, top, req) - bot) && Taken(old(L), L, bot, ptr, Pow2(Order(bot, top, req)))
      ensures Order(bot, top, req) < top && hasCallback && old(supply) != [] && Roomy(old(supply)[0], top) ==>
        ptr != 0 && |supply| >= |old(supply)| - 1
      decreases |supply|
    {
      hide *;
      SoundFacts();
      WholeSuffix(supply);
      var sh := Category(bot, top, req);
      if sh >= top {
        return 0;
      }
      ghost var L0 := L;
      ghost var h := Shape(L, capSize, supply, asks);
      ptr := Get(sh);
      if ptr != 0 {
        DidServe(h, L, bot, sh, req, hasCallback, ptr);
        AccountTake(L0, L, bot, top, live, capSize, supply, Block(ptr, sh));
        live := live + {Block(ptr, sh)};
        BecomesSound();
        return;
      }
      SoundAgain();
      if !hasCallback {
        DidRefuse(h, bot, sh, req);
        return;
      }
      var ok: bool, r: Region;
      ok, r := Grow(req);
      if Roomy(r, top) {
        RoomyServes(L0, L, bot, top, r, sh - bot);
      }
      if !ok {
        DidFail(h, Shape(L, capSize, supply, asks), bot, sh, req, r);
        return 0;
      }
      SoundFacts();
      ghost var g := Shape(L, capSize, supply, asks);
      ptr := Allocate(req);
      DidGrow(h, g, Shape(L, capSize, supply, asks), bot, sh, req, r, ptr);
    }

    /** Gives back the block of sz bytes at ptr. */
    method Release(ptr: nat, sz: nat) returns (ok: bool)
      requires Sound() && sz > 0
      requires ptr != 0 && Order(bot, top, sz) < top && Aligned(ptr, Order(bot, top, sz)) ==>
        Block(ptr, Order(bot, top, sz)) in live
      modifies this`mem, this`L, this`live, pool
      ensures Sound()
      ensures ok <==> ptr != 0 && Order(bot, top, sz) < top && Aligned(ptr, Order(bot, top, sz))
      ensures !ok ==> L == old(L) && live == old(live)
      ensures ok ==> live == old(live) - {Block(ptr, Order(bot, top, sz))}
      ensures ok ==> Given(old(L), L, bot, ptr, Pow2(Order(bot, top, sz)))
      ensures KeepsUsed(old(mem), mem, old(L), L, bot)
    {
      hide *;
      SoundFacts();
      NothingWritten(mem, L, bot);
      if ptr == 0 {
        return false;
      }
      var sh := Category(bot, top, sz);
      if sh >= top {
        return false;
      }
      if Aligned(ptr, sh) {
        LiveNotFree(L, bot, top, live, Block(ptr, sh));
      }
      ghost var L0 := L;
      ok := Put(ptr, sh);
      if ok {
        AccountGive(L0, L, bot, top, live, capSize, supply, Block(ptr, sh));
        live := live - {Block(ptr, sh)};
      }
      BecomesSound();
    }

    /** A block that is taken without asking the expander and given back at
        once leaves the very same lists. */
    method AllocateThenRelease(req: nat)
      requires Sound() && req > 0 && Order(bot, top, req) < top
      requires Served(L, Order(bot, top, req) - bot) != 0
      modifies this`mem, this`L, this`capSize, this`supply, this`asks, this`live, pool
      ensures Sound() && L == old(L) && live == old(live) && capSize == old(capSize)
    {
      hide *;
      SoundFacts();
      ghost var sh := Order(bot, top, req);
      var ptr := Allocate(req);
      SoundFacts();
      ghost var M := L;
      LiveAligned(L, bot, top, live, Block(ptr, sh));
      var ok := Release(ptr, req);
      TakeThenGive(old(L), M, L, bot, ptr, Pow2(sh));
      InAndOut(old(live), Block(ptr, sh));
    }

    /** Gives back the blocks of s, first to last. */
    method ReleaseAll(s: seq<Block>)
      requires Sound() && NoRepeats(s) && forall b :: b in s ==> b in live
      modifies this`mem, this`L, this`live, pool
      ensures Sound() && GivenAll(old(L), L, bot, s)
      ensures live == old(live) - (set b | b in s)
      decreases |s|
    {
      hide *;
      if s == [] {
        NoneGiven(L, bot, s);
      } else {
        var b := s[0];
        SoundFacts();
        FitsItself(L, bot, top, live, b);
        RestOf(s);
        assert b == Block(b.at, b.order);
        var ok := Release(b.at, Pow2(b.order));
        ghost var L1 := L;
        ReleaseAll(s[1..]);
        FirstGiven(old(L), L1, L, bot, s);
      }
    }

    lemma SoundAgain()
      requires Valid() && Account(L, bot, top, live, capSize, supply)
      ensures Sound() && 4 <= bot < top
    {
    }

    lemma SoundFacts()
      requires Sound()
      ensures Valid() && 4 <= bot < top && |L| == top - bot && WellFormed(L, bot)
      ensures Account(L, bot, top, live, capSize, supply) && LiveApart(L, bot, top, live)
    {
    }

    lemma BecomesSound()
      requires Valid() && Account(L, bot, top, live, capSize, supply)
      ensures Sound()
    {
    }

    lemma BecomesValid()
      requires 4 <= bot < top && |L| == top - bot && Consistent(pool[..], mem, L, bot)
      ensures Valid()
    {
    }
  }

  lemma AlignedIs(a: nat, sh: nat)
    ensures Aligned(a, sh) <==> a % Pow2(sh) == 0
  {
  }

  lemma SizeIs(bot: nat, k: nat)
    ensures Size(bot, k) == Pow2(bot + k)
  {
  }

  lemma NothingWritten(mem: Memory, L: Lists, bot: nat)
    ensures KeepsUsed(mem, mem, L, L, bot)
  {
  }

  /** What the two tests of the code find out about the buddy of b. */
  lemma BuddyTest(L: Lists, bot: nat, k: nat, i: nat, b: nat)
    requires WellFormed(L, bot) && k < |L| && Place(L[k], i, b) && Aligned(b, bot + k)
    ensures i <= |L[k]|
    ensures NoBuddy(L, bot, k, b)
      || (Elem(L[k], i - 1) != 0 && Xor(Elem(L[k], i - 1), b) == Pow2(bot + k))
      || (Elem(L[k], i) != 0 && Xor(Elem(L[k], i), b) == Pow2(bot + k))
    ensures Elem(L[k], i - 1) != 0 ==> i > 0 && L[k][i - 1] == Elem(L[k], i - 1) < b && Aligned(L[k][i - 1], bot + k)
    ensures Elem(L[k], i) != 0 ==> i < |L[k]| && L[k][i] == Elem(L[k], i) > b && Aligned(L[k][i], bot + k)
  {
    hide Aligned, Xor, Pow2, NoBuddy;
    BuddyIsNeighbour(L, bot, k, i, b);
    ListsPositive(L, bot, k);
  }

  lemma JoinStep(mem: Memory, L: Lists, bot: nat, k: nat, m: nat, b: nat)
    requires WellFormed(L, bot) && k < |L| && m < |L[k]| && NoneFree(L, bot, b, Pow2(bot + k))
    requires L[k][m] == b + Pow2(bot + k) || b == L[k][m] + Pow2(bot + k)
    ensures NoneFree(Cut(L, k, m), bot, Lower(L[k][m], b), Pow2(bot + k) + Pow2(bot + k))
    ensures Lower(L[k][m], b) == if b < L[k][m] then b else L[k][m]
    ensures Lower(L[k][m], b) > 0 || b == 0
  {
    hide WellFormed, Pow2, NoneFree, Cut;
    CutTakes(L, bot, k, m);
    JoinGives(L, Cut(L, k, m), L, bot, L[k][m], b, Pow2(bot + k));
    ListsPositive(L, bot, k) by {
      WellFormedIs(L, bot);
    }
  }

  lemma WellFormedIs(L: Lists, bot: nat)
    requires WellFormed(L, bot)
    ensures Shaped(L, bot) && Apart(L, bot) && Coalesced(L, bot)
  {
  }

  lemma JoinDone(m0: Memory, m1: Memory, m2: Memory, L: Lists, M: Lists, N: Lists, bot: nat, k: nat, m: nat, b: nat)
    requires WellFormed(L, bot) && k < |L| && m < |L[k]| && NoneFree(L, bot, b, Pow2(bot + k))
    requires L[k][m] == b + Pow2(bot + k) || b == L[k][m] + Pow2(bot + k)
    requires M == Cut(L, k, m) && m1 == Bridge(m0, L[k], m)
    requires Given(M, N, bot, Lower(L[k][m], b), Pow2(bot + k) + Pow2(bot + k))
    requires Bytes(N, bot) == Bytes(M, bot) + Pow2(bot + k) + Pow2(bot + k)
    requires KeepsUsed(m1, m2, M, N, bot)
    ensures Given(L, N, bot, b, Pow2(bot + k)) && Bytes(N, bot) == Bytes(L, bot) + Pow2(bot + k)
    ensures KeepsUsed(m0, m2, L, N, bot)
  {
    hide *;
    SizeIs(bot, k);
    CutTakes(L, bot, k, m);
    CutBytes(L, bot, k, m);
    JoinGives(L, M, N, bot, L[k][m], b, Pow2(bot + k));
    BridgeKeeps(m0, L, M, bot, k, m);
    KeepsJoin(m0, m1, m2, L, M, N, bot, L[k][m], Pow2(bot + k));
  }

  lemma GivenIsFree(L: Lists, M: Lists, bot: nat, a: nat, n: nat)
    requires Given(L, M, bot, a, n) && n > 0
    ensures InFree(M, bot, a)
  {
    assert Within(a, n, a);
  }

  lemma TakeFirst(mem: Memory, L: Lists, bot: nat, k: nat)
    requires WellFormed(L, bot) && k < |L| && L[k] != []
    ensures Taken(L, Cut(L, k, 0), bot, L[k][0], Pow2(bot + k)) && Aligned(L[k][0], bot + k)
    ensures Bytes(L, bot) == Bytes(Cut(L, k, 0), bot) + Pow2(bot + k)
    ensures KeepsUsed(mem, Bridge(mem, L[k], 0), L, Cut(L, k, 0), bot)
    ensures Elem(L[k], 0 - 1) == 0
  {
    CutTakes(L, bot, k, 0);
    CutBytes(L, bot, k, 0);
    ListsPositive(L, bot, k);
    BridgeKeeps(mem, L, Cut(L, k, 0), bot, k, 0);
  }

  /** The upper half of a block just taken is no longer free. */
  lemma SplitStep(L: Lists, M: Lists, bot: nat, sh: nat, a: nat)
    requires Taken(L, M, bot, a, Pow2(sh + 1)) && Aligned(a, sh + 1)
    ensures NoneFree(M, bot, a + Pow2(sh), Pow2(sh))
    ensures Aligned(a, sh) && Aligned(a + Pow2(sh), sh)
    ensures Pow2(sh + 1) == Pow2(sh) + Pow2(sh)
  {
    Halves(a, sh);
    SplitTakes(L, M, M, bot, a, Pow2(sh));
  }

  lemma KeepsSplit(m0: Memory, m1: Memory, m2: Memory, L: Lists, M: Lists, N: Lists, bot: nat, a: nat, n: nat)
    requires Taken(L, M, bot, a, n + n)
    requires KeepsUsed(m0, m1, L, M, bot) && KeepsUsed(m1, m2, M, N, bot)
    ensures KeepsUsed(m0, m2, L, N, bot)
  {
    hide WellFormed, InFree, AllFree;
  }

  function Max(a: nat, b: nat): nat {
    if a < b then b else a
  }

  /** What an allocation can change: the lists, the capacity, the answers of the
      expander to come, and the sizes it was asked for. */
  datatype Shape = Shape(L: Lists, capSize: nat, supply: seq<Region>, asks: seq<nat>)

  /** An allocation takes the block that serves; if there is none, the expander is
      asked for at least the size, as much as there is already, and 16 KB. With a
      region of use it goes on from there, else it ends without a block. */
  ghost predicate AllocDid(h: Shape, u: Shape, bot: nat, order: nat, req: nat, hasCallback: bool, ptr: nat)
    decreases |h.supply|
  {
    if order < bot then false
    else if Served(h.L, order - bot) != 0 then
      ptr == Served(h.L, order - bot) && Taken(h.L, u.L, bot, ptr, Pow2(order)) && u == h.(L := u.L)
    else if !hasCallback then ptr == 0 && u == h
    else
      var asks := h.asks + [if req < h.capSize then Max(h.capSize, 0x4000) else Max(req, 0x4000)];
      if h.supply == [] then ptr == 0 && u == h.(asks := asks)
      else
        var r := h.supply[0];
        var n := Usable(r.base, r.len, Pow2(bot));
        if n == 0 then ptr == 0 && u == h.(supply := h.supply[1..], asks := asks)
        else
          exists M: Lists :: Given(h.L, M, bot, AlignUp(r.base, Pow2(bot)), n)
            && AllocDid(Shape(M, h.capSize + n, h.supply[1..], asks), u, bot, order, req, hasCallback, ptr)
  }

  lemma DidServe(h: Shape, L: Lists, bot: nat, order: nat, req: nat, hasCallback: bool, ptr: nat)
    requires bot <= order && ptr == Served(h.L, order - bot) && ptr != 0 && Taken(h.L, L, bot, ptr, Pow2(order))
    ensures AllocDid(h, h.(L := L), bot, order, req, hasCallback, ptr)
  {
  }

  lemma DidRefuse(h: Shape, bot: nat, order: nat, req: nat)
    requires bot <= order && Served(h.L, order - bot) == 0
    ensures AllocDid(h, h, bot, order, req, false, 0)
  {
  }

  lemma DidFail(h: Shape, u: Shape, bot: nat, order: nat, req: nat, r: Region)
    requires bot <= order && Served(h.L, order - bot) == 0 && Usable(r.base, r.len, Pow2(bot)) == 0
    requires u.L == h.L && u.capSize == h.capSize && u.asks == h.asks + [Max(req, Max(h.capSize, 0x4000))]
    requires if h.supply == [] then u.supply == [] else r == h.supply[0] && u.supply == h.supply[1..]
    ensures AllocDid(h, u, bot, order, req, true, 0)
  {
  }

  lemma DidGrow(h: Shape, g: Shape, u: Shape, bot: nat, order: nat, req: nat, r: Region, ptr: nat)
    requires bot <= order && Served(h.L, order - bot) == 0 && Usable(r.base, r.len, Pow2(bot)) > 0
    requires Given(h.L, g.L, bot, AlignUp(r.base, Pow2(bot)), Usable(r.base, r.len, Pow2(bot)))
    requires g.capSize == h.capSize + Usable(r.base, r.len, Pow2(bot))
    requires g.asks == h.asks + [Max(req, Max(h.capSize, 0x4000))]
    requires h.supply != [] && r == h.supply[0] && g.supply == h.supply[1..]
    requires AllocDid(g, u, bot, order, req, true, ptr)
    ensures AllocDid(h, u, bot, order, req, true, ptr)
  {
    hide Given, Taken;
  }

  /** A region that holds a block of the largest size at its start. Whole pages
      of the heap with blocks up to half a page are like this. */
  predicate Roomy(r: Region, top: nat)
    requires top > 0
  {
    r.base > 0 && Aligned(r.base, top - 1) && Pow2(top - 1) <= r.len
  }

  lemma WholeSuffix(s: seq<Region>)
    ensures s == s[|s| - |s|..]
  {
  }

  ghost predicate NoRepeats(s: seq<Block>) {
    forall i, j :: 0 <= i < j < |s| ==> s[i] != s[j]
  }

  lemma InAndOut(live: set<Block>, b: Block)
    requires b !in live
    ensures live + {b} - {b} == live
  {
  }

  lemma LiveNotFree(L: Lists, bot: nat, top: nat, live: set<Block>, b: Block)
    requires LiveApart(L, bot, top, live) && b in live
    ensures NoneFree(L, bot, b.at, Pow2(b.order))
  {
  }

  lemma LiveAligned(L: Lists, bot: nat, top: nat, live: set<Block>, b: Block)
    requires LiveApart(L, bot, top, live) && b in live
    ensures bot <= b.order < top && b.at > 0 && Aligned(b.at, b.order)
  {
  }

  lemma FitsItself(L: Lists, bot: nat, top: nat, live: set<Block>, b: Block)
    requires LiveApart(L, bot, top, live) && b in live
    ensures b.at > 0 && Order(bot, top, Pow2(b.order)) == b.order < top && Aligned(b.at, b.order)
  {
    if b.order > bot {
      PowStrict(b.order);
    }
    FitsIsOrder(bot, top, Pow2(b.order), b.order);
  }

  lemma NoneGiven(L: Lists, bot: nat, s: seq<Block>)
    requires s == []
    ensures GivenAll(L, L, bot, s) && (set b | b in s) == {}
  {
  }

  lemma RestOf(s: seq<Block>)
    requires s != [] && NoRepeats(s)
    ensures NoRepeats(s[1..]) && forall c :: c in s[1..] ==> c in s && c != s[0]
    ensures (set b | b in s) == {s[0]} + (set b | b in s[1..])
  {
    assert forall c :: c in s <==> c == s[0] || c in s[1..];
  }

  lemma FirstGiven(L: Lists, M: Lists, N: Lists, bot: nat, s: seq<Block>)
    requires s != [] && Given(L, M, bot, s[0].at, Pow2(s[0].order)) && GivenAll(M, N, bot, s[1..])
    ensures GivenAll(L, N, bot, s)
  {
  }

  /** Once a roomy region is added, every order can be served. */
  lemma RoomyServes(L: Lists, M: Lists, bot: nat, top: nat, r: Region, k: nat)
    requires bot < top && |L| == top - bot && Roomy(r, top) && k < |L|
    requires Given(L, M, bot, AlignUp(r.base, Pow2(bot)), Usable(r.base, r.len, Pow2(bot)))
    ensures Usable(r.base, r.len, Pow2(bot)) > 0
    ensures Served(M, k) != 0
  {
    hide *;
    RoomyUsable(r, bot, top);
    GivenFree(L, M, bot, r.base, Usable(r.base, r.len, Pow2(bot)), Pow2(top - 1));
    SizeIs(bot, top - 1 - bot);
    var l, b := InsideOne(M, bot, top - 1 - bot, r.base);
    SomeServed(M, bot, l, b, k);
  }

  lemma SomeServed(M: Lists, bot: nat, l: nat, b: nat, k: nat)
    requires WellFormed(M, bot) && Has(M, l, b) && k <= l
    ensures Served(M, k) != 0
  {
    ServedIsNull(M, bot, k);
  }

  lemma GivenFree(L: Lists, M: Lists, bot: nat, a: nat, n: nat, p: nat)
    requires Given(L, M, bot, a, n) && p <= n
    ensures WellFormed(M, bot) && |M| == |L| && AllFree(M, bot, a, p)
  {
    hide WellFormed, InFree;
    forall x | a <= x < a + p ensures InFree(M, bot, x) {
      assert Within(a, n, x);
    }
  }

  lemma RoomyUsable(r: Region, bot: nat, top: nat)
    requires bot < top && Roomy(r, top)
    ensures r.base > 0 && AlignUp(r.base, Pow2(bot)) == r.base && Aligned(r.base, bot + (top - 1 - bot))
    ensures Pow2(top - 1) <= Usable(r.base, r.len, Pow2(bot))
    ensures Pow2(top - 1) > 0
  {
    var u, p := Pow2(bot), Pow2(top - 1);
    AlignedDown(r.base, bot, top - 1);
    PowerDivides(bot, top - 1);
    AlignedStays(r.base, u);
    WholeUnits(r.len, u, p);
  }

  lemma WholeUnits(len: nat, u: nat, p: nat)
    requires u > 0 && p % u == 0 && p <= len
    ensures p <= (len / u) * u
  {
    var n := (len / u) * u;
    assert len == u * (len / u) + len % u;
    assert u * (len / u) == n;
    IsMultiple(u, len / u);
    if n < p {
      MultipleGap(n, p, u);
    }
  }

  lemma AlignedStays(a: nat, u: nat)
    requires u > 0 && a % u == 0
    ensures AlignUp(a, u) == a
  {
    var k := MultipleIs(a, u);
    Quotient(a + u - 1, u, k, u - 1);
    assert k * u == u * k;
  }

  function AlignUp(a: nat, unit: nat): nat
    requires unit > 0
  {
    ((a + unit - 1) / unit) * unit
  }

  /** The bytes of whole aligned units within a region. */
  function Usable(ptr: nat, len: nat, unit: nat): nat
    requires unit > 0
  {
    var a := AlignUp(ptr, unit);
    if ptr == 0 || len <= a - ptr then 0 else ((len - (a - ptr)) / unit) * unit
  }

  lemma UsableFacts(ptr: nat, len: nat, unit: nat)
    requires unit > 0
    ensures ptr <= AlignUp(ptr, unit) < ptr + unit && AlignUp(ptr, unit) % unit == 0
    ensures ptr == 0 || len == 0 || len <= AlignUp(ptr, unit) - ptr ==> Usable(ptr, len, unit) == 0
  {
    var q, r := (ptr + unit - 1) / unit, (ptr + unit - 1) % unit;
    assert ptr + unit - 1 == unit * q + r;
    assert unit * q == q * unit;
    IsMultiple(unit, q);
  }

  lemma NothingGiven(L: Lists, bot: nat, ptr: nat, len: nat, unit: nat)
    requires unit > 0 && WellFormed(L, bot)
    ensures Usable(ptr, len, unit) == 0 ==> Given(L, L, bot, AlignUp(ptr, unit), Usable(ptr, len, unit))
  {
    hide WellFormed, InFree;
  }

  lemma UsableIs(ptr: nat, len: nat, aligned: nat, cur: nat, rest: nat, bot: nat)
    requires ptr > 0 && aligned == AlignUp(ptr, Pow2(bot)) && ptr <= aligned <= cur && cur + rest == ptr + len
    requires len > aligned - ptr && Aligned(cur, bot) && aligned % Pow2(bot) == 0 && rest < Pow2(bot)
    ensures Usable(ptr, len, Pow2(bot)) == cur - aligned
  {
    var u := Pow2(bot);
    SumAligned(cur, aligned, u);
    var k := MultipleIs(cur - aligned, u);
    var n := len - (aligned - ptr);
    assert n == u * k + rest;
    Quotient(n, u, k, rest);
    assert k * u == u * k;
  }

  lemma Quotient(n: nat, u: nat, k: nat, r: nat)
    requires u > 0 && n == u * k + r && r < u
    ensures n / u == k
  {
    var q, s := n / u, n % u;
    assert n == u * q + s;
    assert u * (q - k) == u * q - u * k == r - s;
    MulSign(u, q - k);
  }

  lemma KeepsMore(m0: Memory, m1: Memory, m2: Memory, L: Lists, M: Lists, N: Lists, bot: nat, a: nat, n: nat)
    requires Given(M, N, bot, a, n)
    requires KeepsUsed(m0, m1, L, M, bot) && KeepsUsed(m1, m2, M, N, bot)
    ensures KeepsUsed(m0, m2, L, N, bot)
  {
    hide WellFormed, InFree;
  }

  lemma FreshIs(L: Lists, bot: nat, live: set<Block>, ptr: nat, len: nat, a: nat, n: nat)
    requires Fresh(L, bot, live, Region(ptr, len)) && ptr > 0 && len > 0 && ptr <= a && a + n == ptr + len
    ensures NoneFree(L, bot, a, n)
  {
  }

  lemma PartNone(L: Lists, bot: nat, a: nat, n: nat, m: nat)
    requires NoneFree(L, bot, a, n) && m <= n
    ensures NoneFree(L, bot, a, m) && NoneFree(L, bot, a + m, n - m)
  {
  }

  lemma NextTo(a: nat, n: nat, m: nat)
    ensures Disjoint(a, n, a + n, m)
  {
  }

  lemma NextAligned(a: nat, bot: nat, sh: nat)
    requires bot <= sh && Aligned(a, sh)
    ensures Aligned(a + Pow2(sh), bot)
  {
    IsMultiple(Pow2(sh), 1);
    SumAligned(a, Pow2(sh), Pow2(sh));
    AlignedDown(a + Pow2(sh), bot, sh);
  }

  lemma NothingFree(L: Lists, bot: nat)
    requires forall l :: 0 <= l < |L| ==> L[l] == []
    ensures forall x: nat :: !InFree(L, bot, x)
  {
  }

  lemma {:induction false} NoBytes(L: Lists, bot: nat, k: nat)
    requires k <= |L| && forall l :: 0 <= l < |L| ==> L[l] == []
    ensures BytesFrom(L, bot, k) == 0
    decreases |L| - k
  {
    if k < |L| {
      NoBytes(L, bot, k + 1);
    }
  }

  lemma InChain(mem: Memory, s: seq<nat>, i: nat)
    requires Linked(mem, s) && Positive(s) && i <= |s|
    ensures i < |s| <==> Elem(s, i) != 0
    ensures i < |s| ==> s[i] == Elem(s, i) && s[i] in mem && mem[s[i]].next == Elem(s, i + 1)
    ensures i < |s| ==> Elem(s, i + 1 - 1) == s[i]
  {
    if i < |s| {
      assert NodeAt(mem, s, i);
    }
  }

  lemma Chained(mem: Memory, s: seq<nat>, i: nat)
    requires Linked(mem, s) && Ordered(s) && Positive(s) && i < |s|
    ensures s[i] in mem && mem[s[i]] == Node(Elem(s, i - 1), Elem(s, i + 1))
    ensures i > 0 <==> Elem(s, i - 1) != 0
    ensures Elem(s, i - 1) != 0 ==> Elem(s, i - 1) in mem
    ensures Elem(s, i + 1) != 0 ==> Elem(s, i + 1) in mem
  {
    assert NodeAt(mem, s, i);
    assert i > 0 ==> NodeAt(mem, s, i - 1);
    assert i + 1 < |s| ==> NodeAt(mem, s, i + 1);
  }

  lemma SplicePlace(mem: Memory, s: seq<nat>, i: nat, b: nat)
    requires Linked(mem, s) && Positive(s) && Place(s, i, b)
    ensures i > 0 <==> Elem(s, i - 1) != 0
    ensures Elem(s, i - 1) != 0 ==> Elem(s, i - 1) in mem
    ensures Elem(s, i) != 0 ==> Elem(s, i) in mem
    ensures i <= |s|
  {
    assert i > 0 ==> NodeAt(mem, s, i - 1);
    assert i < |s| ==> NodeAt(mem, s, i);
  }

  lemma CutShape(L: Lists, k: nat, i: nat)
    requires k < |L| && i < |L[k]|
    ensures |Cut(L, k, i)| == |L|
  {
  }

  lemma PasteShape(L: Lists, k: nat, i: nat, b: nat)
    requires k < |L| && i <= |L[k]|
    ensures |Paste(L, k, i, b)| == |L|
  {
  }

  lemma BridgeIs(mem: Memory, s: seq<nat>, i: nat)
    ensures Bridge(mem, s, i) == WithNext(WithPrev(mem, Elem(s, i + 1), Elem(s, i - 1)), Elem(s, i - 1), Elem(s, i + 1))
    ensures forall m: Memory, a: nat, b: nat :: a != 0 && a in m ==>
      WithNext(m, a, b) == m[a := Node(m[a].prev, b)] && WithPrev(m, a, b) == m[a := Node(b, m[a].next)]
    ensures forall m: Memory, b: nat :: WithNext(m, 0, b) == m && WithPrev(m, 0, b) == m
  {
  }

  lemma SpliceIs(mem: Memory, s: seq<nat>, i: nat, b: nat)
    ensures Splice(mem, s, i, b) ==
      WithNext(WithPrev(mem[b := Node(Elem(s, i - 1), Elem(s, i))], Elem(s, i), b), Elem(s, i - 1), b)
    ensures forall m: Memory, a: nat, b: nat :: a != 0 && a in m ==>
      WithNext(m, a, b) == m[a := Node(m[a].prev, b)] && WithPrev(m, a, b) == m[a := Node(b, m[a].next)]
    ensures forall m: Memory, b: nat :: WithNext(m, 0, b) == m && WithPrev(m, 0, b) == m
  {
  }
}
