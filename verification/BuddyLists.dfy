/** The free lists of the buddy heap (util/include/buddy_heap.hpp), seen as
    sequences of addresses, one sequence for each block size.

    List k holds blocks of 2^(bot + k) bytes. */
module BuddyLists {
  import opened PowersOfTwo

  type Lists = seq<seq<nat>>

  function Size(bot: nat, k: nat): nat {
    Pow2(bot + k)
  }

  predicate Has(L: Lists, k: int, a: nat) {
    0 <= k < |L| && a in L[k]
  }

  predicate Within(a: nat, n: nat, x: nat) {
    a <= x < a + n
  }

  ghost predicate Ordered(s: seq<nat>) {
    forall i, j :: 0 <= i < j < |s| ==> s[i] < s[j]
  }

  /** Sorted lists of aligned, nonzero addresses. */
  ghost predicate Shaped(L: Lists, bot: nat) {
    && (forall k :: 0 <= k < |L| ==> Ordered(L[k]))
    && (forall k: nat, a: nat :: Has(L, k, a) ==> a > 0 && Aligned(a, bot + k))
  }

  ghost predicate Disjoint(a: nat, m: nat, b: nat, n: nat) {
    a + m <= b || b + n <= a
  }

  /** No two blocks overlap. */
  ghost predicate Apart(L: Lists, bot: nat) {
    forall k: nat, a: nat, l: nat, b: nat :: Has(L, k, a) && Has(L, l, b) && (k != l || a != b) ==>
      Disjoint(a, Size(bot, k), b, Size(bot, l))
  }

  /** Below the top order, no two halves of one block are both free. */
  ghost predicate Coalesced(L: Lists, bot: nat) {
    forall k: nat, a: nat :: Has(L, k, a) && k + 1 < |L| && Aligned(a, bot + k + 1) ==> !Has(L, k, a + Size(bot, k))
  }

  ghost predicate WellFormed(L: Lists, bot: nat) {
    Shaped(L, bot) && Apart(L, bot) && Coalesced(L, bot)
  }

  /** Address x is in a free block. */
  ghost predicate InFree(L: Lists, bot: nat, x: nat) {
    exists k: nat, a: nat :: Has(L, k, a) && Within(a, Size(bot, k), x)
  }

  ghost predicate AllFree(L: Lists, bot: nat, a: nat, n: nat) {
    forall x :: a <= x < a + n ==> InFree(L, bot, x)
  }

  ghost predicate NoneFree(L: Lists, bot: nat, a: nat, n: nat) {
    forall x :: a <= x < a + n ==> !InFree(L, bot, x)
  }

  // ---------------------------------------------------------------------
  // The lists are a function of the set of free addresses
  // ---------------------------------------------------------------------

  lemma ListedIsFree(L: Lists, bot: nat, k: nat, a: nat)
    requires Has(L, k, a)
    ensures AllFree(L, bot, a, Size(bot, k))
  {
    forall x | a <= x < a + Size(bot, k) ensures InFree(L, bot, x) {
      assert Within(a, Size(bot, k), x);
    }
  }

  /** A block that is aligned and wholly free lies inside one block of the lists. */
  lemma {:induction false} InsideOne(L: Lists, bot: nat, j: nat, c: nat) returns (l: nat, b: nat)
    requires WellFormed(L, bot) && j < |L| && Aligned(c, bot + j) && AllFree(L, bot, c, Size(bot, j))
    ensures j <= l && Has(L, l, b) && b <= c && c + Size(bot, j) <= b + Size(bot, l)
    decreases j
  {
    if j == 0 {
      assert InFree(L, bot, c);
      l, b :| Has(L, l, b) && Within(b, Size(bot, l), c);
      NestedOrApart(c, bot, b, bot + l);
    } else {
      var h := Size(bot, j - 1);
      Halves(c, bot + j - 1);
      assert Size(bot, j) == 2 * h;
      assert AllFree(L, bot, c, h) && AllFree(L, bot, c + h, h);
      var l1, b1 := InsideOne(L, bot, j - 1, c);
      var l2, b2 := InsideOne(L, bot, j - 1, c + h);
      if l1 >= j {
        NestedOrApart(c, bot + j, b1, bot + l1);
        l, b := l1, b1;
      } else {
        NotBothHalves(L, bot, j, c);
        NestedOrApart(c, bot + j, b2, bot + l2);
        l, b := l2, b2;
      }
    }
  }

  lemma NotBothHalves(L: Lists, bot: nat, j: nat, c: nat)
    requires Coalesced(L, bot) && 0 < j < |L| && Aligned(c, bot + j) && Has(L, j - 1, c)
    ensures !Has(L, j - 1, c + Size(bot, j - 1))
  {
  }

  lemma ApartAt(L: Lists, bot: nat, k: nat, a: nat, l: nat, b: nat)
    requires Apart(L, bot) && Has(L, k, a) && Has(L, l, b) && (k != l || a != b)
    ensures Disjoint(a, Size(bot, k), b, Size(bot, l))
  {
  }

  /** The block of twice the size that block a is half of. */
  function Parent(a: nat, sh: nat): nat
    requires Aligned(a, sh)
  {
    if Aligned(a, sh + 1) then a else (UpperHalf(a, sh); a - Pow2(sh))
  }

  lemma ParentHolds(a: nat, sh: nat)
    requires Aligned(a, sh)
    ensures Aligned(Parent(a, sh), sh + 1)
    ensures Parent(a, sh) <= a && a + Pow2(sh) <= Parent(a, sh) + Pow2(sh + 1)
  {
    if !Aligned(a, sh + 1) {
      UpperHalf(a, sh);
    }
  }

  /** What is listed, said of the free addresses alone: the aligned blocks that
      are wholly free but whose parent is not. */
  ghost predicate Maximal(L: Lists, bot: nat, k: nat, a: nat) {
    && k < |L| && Aligned(a, bot + k) && AllFree(L, bot, a, Size(bot, k))
    && (k + 1 < |L| ==> !AllFree(L, bot, Parent(a, bot + k), Size(bot, k + 1)))
  }

  lemma ParentNotFree(L: Lists, bot: nat, k: nat, a: nat)
    requires WellFormed(L, bot) && Has(L, k, a) && k + 1 < |L|
    ensures !AllFree(L, bot, Parent(a, bot + k), Size(bot, k + 1))
  {
    ParentHolds(a, bot + k);
    if AllFree(L, bot, Parent(a, bot + k), Size(bot, k + 1)) {
      var l, b := InsideOne(L, bot, k + 1, Parent(a, bot + k));
      ApartAt(L, bot, k, a, l, b);
      assert false;
    }
  }

  /** A block of the lists that holds an aligned smaller block holds its parent. */
  lemma HoldsParent(L: Lists, bot: nat, k: nat, a: nat, l: nat, b: nat)
    requires WellFormed(L, bot) && Has(L, l, b) && k < l && Aligned(a, bot + k)
    requires b <= a && a + Size(bot, k) <= b + Size(bot, l)
    ensures AllFree(L, bot, Parent(a, bot + k), Size(bot, k + 1))
  {
    ParentHolds(a, bot + k);
    NestedOrApart(Parent(a, bot + k), bot + k + 1, b, bot + l);
    ListedIsFree(L, bot, l, b);
  }

  lemma ListedIffMaximal(L: Lists, bot: nat, k: nat, a: nat)
    requires WellFormed(L, bot)
    ensures Has(L, k, a) <==> Maximal(L, bot, k, a)
  {
    if Has(L, k, a) {
      ListedIsFree(L, bot, k, a);
      if k + 1 < |L| {
        ParentNotFree(L, bot, k, a);
      }
    }
    if Maximal(L, bot, k, a) {
      var l, b := InsideOne(L, bot, k, a);
      if l > k {
        HoldsParent(L, bot, k, a, l, b);
        assert false;
      }
    }
  }

  lemma {:induction false} OrderedSame(s: seq<nat>, t: seq<nat>)
    requires Ordered(s) && Ordered(t) && forall a :: a in s <==> a in t
    ensures s == t
  {
    if |s| > 0 {
      assert s[|s| - 1] in t && |t| > 0;
      assert t[|t| - 1] in s;
      var s', t' := s[..|s| - 1], t[..|t| - 1];
      assert s[|s| - 1] == t[|t| - 1];
      forall a ensures a in s' <==> a in t' {
        assert a in s <==> a in s' || a == s[|s| - 1];
        assert a in t <==> a in t' || a == t[|t| - 1];
        assert s[|s| - 1] !in s' && t[|t| - 1] !in t';
      }
      OrderedSame(s', t');
      assert s == s' + [s[|s| - 1]] && t == t' + [t[|t| - 1]];
    } else {
      EmptyOrNot(t);
    }
  }

  lemma EmptyOrNot(s: seq<nat>)
    ensures s == [] || exists a :: a in s
  {
    if s != [] {
      assert s[0] in s;
    }
  }

  /** Two well-formed states with the same free addresses are the same state. */
  lemma Canonical(L: Lists, M: Lists, bot: nat)
    requires WellFormed(L, bot) && WellFormed(M, bot) && |L| == |M|
    requires forall x :: InFree(L, bot, x) <==> InFree(M, bot, x)
    ensures L == M
  {
    forall k | 0 <= k < |L| ensures L[k] == M[k] {
      forall a: nat ensures a in L[k] <==> a in M[k] {
        ListedIffMaximal(L, bot, k, a);
        ListedIffMaximal(M, bot, k, a);
        assert Has(L, k, a) <==> a in L[k];
        assert Has(M, k, a) <==> a in M[k];
      }
      OrderedSame(L[k], M[k]);
    }
  }

  // ---------------------------------------------------------------------
  // Taking a block out of a list and putting one in
  // ---------------------------------------------------------------------

  function Cut(L: Lists, k: nat, i: nat): Lists
    requires k < |L| && i < |L[k]|
  {
    L[k := L[k][..i] + L[k][i + 1..]]
  }

  function Paste(L: Lists, k: nat, i: nat, b: nat): Lists
    requires k < |L| && i <= |L[k]|
  {
    L[k := L[k][..i] + [b] + L[k][i..]]
  }

  lemma CutHas(L: Lists, k: nat, i: nat)
    requires k < |L| && i < |L[k]| && Ordered(L[k])
    ensures forall l: nat, a: nat :: Has(Cut(L, k, i), l, a) <==> Has(L, l, a) && (l != k || a != L[k][i])
  {
    var s := L[k][..i] + L[k][i + 1..];
    forall a: nat ensures a in s <==> a in L[k] && a != L[k][i] {
      if a in L[k] && a != L[k][i] {
        var j :| 0 <= j < |L[k]| && L[k][j] == a;
        assert s[if j < i then j else j - 1] == a;
      }
    }
  }

  lemma PasteHas(L: Lists, k: nat, i: nat, b: nat)
    requires k < |L| && i <= |L[k]|
    ensures forall l: nat, a: nat :: Has(Paste(L, k, i, b), l, a) <==> Has(L, l, a) || (l == k && a == b)
  {
    var s := L[k][..i] + [b] + L[k][i..];
    forall a: nat ensures a in s <==> a in L[k] || a == b {
      if a in L[k] {
        var j :| 0 <= j < |L[k]| && L[k][j] == a;
        assert s[if j < i then j else j + 1] == a;
      }
      assert s[i] == b;
    }
  }

  lemma CutOrdered(L: Lists, k: nat, i: nat)
    requires k < |L| && i < |L[k]| && Ordered(L[k])
    ensures Ordered(Cut(L, k, i)[k])
  {
    var s := L[k][..i] + L[k][i + 1..];
    assert forall j :: 0 <= j < |s| ==> s[j] == L[k][if j < i then j else j + 1];
  }

  lemma PasteOrdered(L: Lists, k: nat, i: nat, b: nat)
    requires k < |L| && i <= |L[k]| && Ordered(L[k])
    requires i > 0 ==> L[k][i - 1] < b
    requires i < |L[k]| ==> b < L[k][i]
    ensures Ordered(Paste(L, k, i, b)[k])
  {
    var s := L[k][..i] + [b] + L[k][i..];
    forall j1, j2 | 0 <= j1 < j2 < |s| ensures s[j1] < s[j2] {
      assert s[j1] == if j1 < i then L[k][j1] else if j1 == i then b else L[k][j1 - 1];
      assert s[j2] == if j2 < i then L[k][j2] else if j2 == i then b else L[k][j2 - 1];
    }
    assert Paste(L, k, i, b)[k] == s;
  }

  /** Taking a block out keeps the state well formed and frees less by exactly that block. */
  lemma CutKeeps(L: Lists, bot: nat, k: nat, i: nat)
    requires WellFormed(L, bot) && k < |L| && i < |L[k]|
    ensures WellFormed(Cut(L, k, i), bot)
    ensures forall x :: InFree(Cut(L, k, i), bot, x) <==> InFree(L, bot, x) && !Within(L[k][i], Size(bot, k), x)
  {
    var M := Cut(L, k, i);
    CutHas(L, k, i);
    CutOrdered(L, k, i);
    assert Has(L, k, L[k][i]);
    forall x: nat
      ensures InFree(M, bot, x) <==> InFree(L, bot, x) && !Within(L[k][i], Size(bot, k), x)
    {
      if InFree(M, bot, x) {
        var l: nat, a: nat :| Has(M, l, a) && Within(a, Size(bot, l), x);
        assert Has(L, l, a);
        ApartAt(L, bot, k, L[k][i], l, a);
      }
      if InFree(L, bot, x) && !Within(L[k][i], Size(bot, k), x) {
        var l: nat, a: nat :| Has(L, l, a) && Within(a, Size(bot, l), x);
        assert Has(M, l, a);
      }
    }
  }

  /** Putting a block in whose buddy is not in the list keeps the state well formed. */
  lemma PasteKeeps(L: Lists, bot: nat, k: nat, i: nat, b: nat)
    requires WellFormed(L, bot) && k < |L| && i <= |L[k]|
    requires i > 0 ==> L[k][i - 1] < b
    requires i < |L[k]| ==> b < L[k][i]
    requires b > 0 && Aligned(b, bot + k) && NoneFree(L, bot, b, Size(bot, k))
    requires k + 1 < |L| ==> NoBuddy(L, bot, k, b)
    ensures WellFormed(Paste(L, k, i, b), bot)
    ensures forall x :: InFree(Paste(L, k, i, b), bot, x) <==> InFree(L, bot, x) || Within(b, Size(bot, k), x)
  {
    var M := Paste(L, k, i, b);
    PasteHas(L, k, i, b);
    PasteOrdered(L, k, i, b);
    assert Has(M, k, b);
    forall l: nat, a: nat | Has(L, l, a) ensures Disjoint(a, Size(bot, l), b, Size(bot, k)) {
      FarFrom(L, bot, k, b, l, a);
    }
    forall x: nat
      ensures InFree(M, bot, x) <==> InFree(L, bot, x) || Within(b, Size(bot, k), x)
    {
      if InFree(L, bot, x) {
        var l: nat, a: nat :| Has(L, l, a) && Within(a, Size(bot, l), x);
        assert Has(M, l, a);
      }
    }
    PasteCoalesced(L, bot, k, i, b);
  }

  /** The other half of block b's parent is not in list k. */
  ghost predicate NoBuddy(L: Lists, bot: nat, k: nat, b: nat) {
    && (Aligned(b, bot + k + 1) ==> !Has(L, k, b + Size(bot, k)))
    && (forall a: nat :: Has(L, k, a) && Aligned(a, bot + k + 1) ==> a + Size(bot, k) != b)
  }

  lemma PasteCoalesced(L: Lists, bot: nat, k: nat, i: nat, b: nat)
    requires Coalesced(L, bot) && k < |L| && i <= |L[k]|
    requires k + 1 < |L| ==> NoBuddy(L, bot, k, b)
    ensures Coalesced(Paste(L, k, i, b), bot)
  {
    PasteHas(L, k, i, b);
  }

  lemma FarFrom(L: Lists, bot: nat, k: nat, b: nat, l: nat, a: nat)
    requires Has(L, l, a) && NoneFree(L, bot, b, Size(bot, k))
    ensures Disjoint(a, Size(bot, l), b, Size(bot, k))
  {
    assert forall x: nat :: Within(a, Size(bot, l), x) ==> InFree(L, bot, x);
    assert !Within(b, Size(bot, k), a) || !InFree(L, bot, a);
    assert Within(a, Size(bot, l), a);
    assert Within(b, Size(bot, k), b);
    assert !Within(a, Size(bot, l), b);
  }

  // ---------------------------------------------------------------------
  // The buddy of a block is a neighbour in its sorted list
  // ---------------------------------------------------------------------

  /** Where block b belongs in the sorted list s. */
  ghost predicate Place(s: seq<nat>, i: nat, b: nat) {
    i <= |s| && (i > 0 ==> s[i - 1] < b) && (i < |s| ==> b < s[i])
  }

  predicate BuddyAt(s: seq<nat>, i: int, b: nat, n: nat) {
    0 <= i < |s| && Xor(s[i], b) == n
  }

  lemma PlaceSplits(s: seq<nat>, i: nat, b: nat, j: nat)
    requires Ordered(s) && Place(s, i, b) && j < |s|
    ensures j < i ==> s[j] <= s[i - 1] < b
    ensures j >= i ==> b < s[i] <= s[j]
  {
  }

  lemma AboveIsNext(L: Lists, bot: nat, k: nat, i: nat, b: nat)
    requires Shaped(L, bot) && k < |L| && Place(L[k], i, b)
    requires Aligned(b, bot + k + 1) && Aligned(b, bot + k) && Has(L, k, b + Size(bot, k))
    ensures BuddyAt(L[k], i, b, Size(bot, k))
  {
    var a := b + Size(bot, k);
    var s := L[k];
    var j :| 0 <= j < |s| && s[j] == a;
    PlaceSplits(s, i, b, j);
    assert Has(L, k, s[i]);
    if j > i {
      MultipleGap(b, s[i], Size(bot, k));
    }
    XorFindsBuddy(b, a, bot + k);
    XorSymmetric(b, a);
  }

  lemma BelowIsPrevious(L: Lists, bot: nat, k: nat, i: nat, b: nat, a: nat)
    requires Shaped(L, bot) && k < |L| && Place(L[k], i, b) && Aligned(b, bot + k)
    requires Has(L, k, a) && Aligned(a, bot + k + 1) && a + Size(bot, k) == b
    ensures BuddyAt(L[k], i - 1, b, Size(bot, k))
  {
    var s := L[k];
    var j :| 0 <= j < |s| && s[j] == a;
    PlaceSplits(s, i, b, j);
    assert Has(L, k, s[i - 1]);
    if j < i - 1 {
      MultipleGap(s[i - 1], b, Size(bot, k));
    }
    XorFindsBuddy(a, b, bot + k);
  }

  /** If the buddy of block b is free in list k, it stands right before or right
      after the place of b. */
  lemma BuddyIsNeighbour(L: Lists, bot: nat, k: nat, i: nat, b: nat)
    requires Shaped(L, bot) && k < |L| && Place(L[k], i, b) && Aligned(b, bot + k)
    ensures NoBuddy(L, bot, k, b) || BuddyAt(L[k], i - 1, b, Size(bot, k)) || BuddyAt(L[k], i, b, Size(bot, k))
  {
    if Aligned(b, bot + k + 1) && Has(L, k, b + Size(bot, k)) {
      AboveIsNext(L, bot, k, i, b);
    }
    forall a: nat | Has(L, k, a) && Aligned(a, bot + k + 1) && a + Size(bot, k) == b
      ensures BuddyAt(L[k], i - 1, b, Size(bot, k))
    {
      BelowIsPrevious(L, bot, k, i, b, a);
    }
  }

  function Lower(a: nat, b: nat): nat {
    if a < b then a else b
  }

  /** What the test picks is the buddy: together the two are one aligned block. */
  lemma PickedIsBuddy(a: nat, b: nat, sh: nat)
    requires Aligned(a, sh) && Aligned(b, sh) && a != b && Xor(a, b) == Pow2(sh)
    ensures Aligned(Lower(a, b), sh + 1)
    ensures a == b + Pow2(sh) || b == a + Pow2(sh)
    ensures a == Lower(a, b) ==> b == a + Pow2(sh)
    ensures b == Lower(a, b) ==> a == b + Pow2(sh)
    ensures Pow2(sh + 1) == 2 * Pow2(sh)
  {
    XorSymmetric(a, b);
    if a < b {
      XorFindsBuddy(a, b, sh);
    } else {
      XorFindsBuddy(b, a, sh);
    }
  }

  // ---------------------------------------------------------------------
  // What giving back and taking a block do to the lists
  // ---------------------------------------------------------------------

  /** M is L with n bytes at a more free. */
  ghost predicate Given(L: Lists, M: Lists, bot: nat, a: nat, n: nat) {
    && |M| == |L| && WellFormed(M, bot)
    && forall x: nat :: InFree(M, bot, x) <==> InFree(L, bot, x) || Within(a, n, x)
  }

  /** M is L without the n free bytes at a. */
  ghost predicate Taken(L: Lists, M: Lists, bot: nat, a: nat, n: nat) {
    && |M| == |L| && WellFormed(M, bot) && AllFree(L, bot, a, n)
    && forall x: nat :: InFree(M, bot, x) <==> InFree(L, bot, x) && !Within(a, n, x)
  }

  /** Giving back what was just taken restores the very same lists. */
  lemma TakeThenGive(L: Lists, M: Lists, N: Lists, bot: nat, a: nat, n: nat)
    requires WellFormed(L, bot) && Taken(L, M, bot, a, n) && Given(M, N, bot, a, n)
    ensures N == L
  {
    forall x: nat ensures InFree(N, bot, x) <==> InFree(L, bot, x) {
      assert Within(a, n, x) ==> InFree(L, bot, x);
    }
    Canonical(N, L, bot);
  }

  datatype Block = Block(at: nat, order: nat)

  /** M is reached from L by giving back the blocks of s, first to last. */
  ghost predicate GivenAll(L: Lists, M: Lists, bot: nat, s: seq<Block>)
    decreases |s|
  {
    if s == [] then M == L
    else exists K: Lists :: Given(L, K, bot, s[0].at, Pow2(s[0].order)) && GivenAll(K, M, bot, s[1..])
  }

  ghost predicate InSome(s: seq<Block>, x: nat) {
    exists b :: b in s && Within(b.at, Pow2(b.order), x)
  }

  lemma {:induction false} GivenAllFrees(L: Lists, M: Lists, bot: nat, s: seq<Block>)
    requires WellFormed(L, bot) && GivenAll(L, M, bot, s)
    ensures |M| == |L| && WellFormed(M, bot)
    ensures forall x: nat :: InFree(M, bot, x) <==> InFree(L, bot, x) || InSome(s, x)
    decreases |s|
  {
    if s != [] {
      var K: Lists :| Given(L, K, bot, s[0].at, Pow2(s[0].order)) && GivenAll(K, M, bot, s[1..]);
      GivenAllFrees(K, M, bot, s[1..]);
      forall x: nat ensures InSome(s, x) <==> InSome(s[1..], x) || Within(s[0].at, Pow2(s[0].order), x) {
        assert forall b :: b in s <==> b in s[1..] || b == s[0];
      }
    }
  }

  /** The same blocks given back in any order leave identical lists. */
  lemma OrderDoesNotMatter(L: Lists, M: Lists, N: Lists, bot: nat, s: seq<Block>, t: seq<Block>)
    requires WellFormed(L, bot) && GivenAll(L, M, bot, s) && GivenAll(L, N, bot, t)
    requires multiset(s) == multiset(t)
    ensures M == N
  {
    GivenAllFrees(L, M, bot, s);
    GivenAllFrees(L, N, bot, t);
    assert forall b :: b in s <==> b in multiset(s);
    assert forall b :: b in t <==> b in multiset(t);
    assert forall x: nat :: InSome(s, x) <==> InSome(t, x);
    Canonical(M, N, bot);
  }

  // ---------------------------------------------------------------------
  // Counting free bytes
  // ---------------------------------------------------------------------

  function BytesFrom(L: Lists, bot: nat, k: nat): nat
    requires k <= |L|
    decreases |L| - k
  {
    if k == |L| then 0 else |L[k]| * Size(bot, k) + BytesFrom(L, bot, k + 1)
  }

  function Bytes(L: Lists, bot: nat): nat {
    BytesFrom(L, bot, 0)
  }

  lemma {:induction false} BytesChange(L: Lists, M: Lists, bot: nat, k: nat, j: nat)
    requires |M| == |L| && k < |L| && j <= |L| && forall l :: 0 <= l < |L| && l != k ==> M[l] == L[l]
    requires |M[k]| == |L[k]| + 1
    ensures BytesFrom(M, bot, j) == BytesFrom(L, bot, j) + if j <= k then Size(bot, k) else 0
    decreases |L| - j
  {
    if j < |L| {
      BytesChange(L, M, bot, k, j + 1);
      if j == k {
        OneMore(|L[k]|, Size(bot, k));
      }
    }
  }

  lemma OneMore(a: nat, n: nat)
    ensures (a + 1) * n == a * n + n
  {
  }

  lemma CutBytes(L: Lists, bot: nat, k: nat, i: nat)
    requires k < |L| && i < |L[k]|
    ensures Bytes(L, bot) == Bytes(Cut(L, k, i), bot) + Size(bot, k)
  {
    BytesChange(Cut(L, k, i), L, bot, k, 0);
  }

  lemma PasteBytes(L: Lists, bot: nat, k: nat, i: nat, b: nat)
    requires k < |L| && i <= |L[k]|
    ensures Bytes(Paste(L, k, i, b), bot) == Bytes(L, bot) + Size(bot, k)
  {
    BytesChange(L, Paste(L, k, i, b), bot, k, 0);
  }

  lemma GivenNothing(L: Lists, bot: nat, a: nat)
    requires WellFormed(L, bot)
    ensures Given(L, L, bot, a, 0)
  {
  }

  /** Giving back two neighbouring ranges gives back both. */
  lemma GivenJoin(L: Lists, M: Lists, N: Lists, bot: nat, a: nat, n: nat, m: nat)
    requires Given(L, M, bot, a, n) && Given(M, N, bot, a + n, m)
    ensures Given(L, N, bot, a, n + m)
  {
    hide WellFormed, InFree;
    assert forall x: nat :: Within(a, n + m, x) <==> Within(a, n, x) || Within(a + n, m, x);
  }

  lemma GivenElsewhere(L: Lists, M: Lists, bot: nat, a: nat, n: nat, b: nat, m: nat)
    requires Given(L, M, bot, a, n) && NoneFree(L, bot, b, m) && Disjoint(a, n, b, m)
    ensures NoneFree(M, bot, b, m)
  {
    hide WellFormed, InFree;
    forall x | b <= x < b + m ensures !InFree(M, bot, x) {
      assert !Within(a, n, x);
    }
  }

  lemma TakenElsewhere(L: Lists, M: Lists, bot: nat, a: nat, n: nat, b: nat, m: nat)
    requires Taken(L, M, bot, a, n) && NoneFree(L, bot, b, m)
    ensures NoneFree(M, bot, b, m) && NoneFree(M, bot, a, n)
  {
    hide WellFormed, InFree;
    forall x | b <= x < b + m || a <= x < a + n ensures !InFree(M, bot, x) {
      assert Within(a, n, x) || !InFree(L, bot, x);
    }
  }

  /** A free range and one with nothing free in it do not meet. */
  lemma FreeIsApart(L: Lists, bot: nat, a: nat, n: nat, b: nat, m: nat)
    requires AllFree(L, bot, a, n) && NoneFree(L, bot, b, m) && n > 0 && m > 0
    ensures Disjoint(a, n, b, m)
  {
    hide InFree;
    assert !(b <= a < b + m) || !InFree(L, bot, a);
    assert !(a <= b < a + n) || InFree(L, bot, b);
  }
}
