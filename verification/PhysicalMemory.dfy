/** The physical page allocator (kernel/memory/pm.cpp).

    Physical pages are named by their frame number, that is, the physical
    address divided by 0x1000.  Every page has a byte in the bitmap with a
    `free` bit and a `solid` bit; 0x1000 consecutive bytes form a group.  The
    bits are laid out so that the highest free page of a group can be found by
    binary search. */
module PhysicalMemory {

  const GROUP: nat := 0x1000

  datatype Entry = Entry(free: bool, solid: bool)

  datatype Mode = Ordinary | MustSucceed | Take

  /** One past the last entry of the group that entry i belongs to. */
  function GroupEnd(i: nat): nat {
    (i / GROUP + 1) * GROUP
  }

  /** No page above i in i's own group is free. */
  ghost predicate NoneAbove(s: seq<Entry>, i: nat) {
    forall j :: i < j < GroupEnd(i) && j < |s| ==> !s[j].free
  }

  /** Entry i tells the truth: `solid` exactly when nothing above it is free. */
  ghost predicate Truthful(s: seq<Entry>, i: nat)
    requires i < |s|
  {
    s[i].solid <==> NoneAbove(s, i)
  }

  ghost predicate AllTruthful(s: seq<Entry>) {
    forall i :: 0 <= i < |s| ==> Truthful(s, i)
  }

  /** The set of free pages described by a bitmap. */
  ghost function FreePages(s: seq<Entry>): set<nat> {
    set i | 0 <= i < |s| && s[i].free
  }

  /** Solid entries are upward closed within a group. */
  lemma SolidUpward(s: seq<Entry>, i: nat, j: nat)
    requires i <= j < |s| && j < GroupEnd(i)
    requires Truthful(s, i) && Truthful(s, j)
    ensures s[i].solid ==> s[j].solid
  {
    assert GroupEnd(j) == GroupEnd(i);
    if s[i].solid {
      assert NoneAbove(s, i);
      forall k | j < k < GroupEnd(j) && k < |s| ensures !s[k].free {
      }
      assert NoneAbove(s, j);
    }
  }

  /** The first entry of a group is solid and used exactly when the group has no free page. */
  lemma GroupExhausted(s: seq<Entry>, g: nat)
    requires (g + 1) * GROUP <= |s| && Truthful(s, g * GROUP)
    ensures (s[g * GROUP].solid && !s[g * GROUP].free) <==>
            forall i :: g * GROUP <= i < (g + 1) * GROUP ==> !s[i].free
  {
    var b := g * GROUP;
    assert GroupEnd(b) == (g + 1) * GROUP;
    assert (s[b].solid && !s[b].free) ==> NoneAbove(s, b);
    if forall i :: b <= i < (g + 1) * GROUP ==> !s[i].free {
      assert NoneAbove(s, b);
    }
  }

  /** The group of `page` is the first, going around from group `next`, that
      has a free page at all, and `page` is the highest free page in it. */
  ghost predicate Chosen(free: set<nat>, page: nat, next: nat) {
    && page in free
    && (forall q :: q in free && q / GROUP == page / GROUP ==> q <= page)
    && forall q :: q in free ==> GoesFirst(page / GROUP, q / GROUP, next)
  }

  /** Going around from group `next`, group g is met no later than group h. */
  ghost predicate GoesFirst(g: nat, h: nat, next: nat) {
    if g >= next then h < next || g <= h else g <= h < next
  }

  class PM {
    const bmp: array<Entry>
    const bmpSize: nat
    var hardLimit: nat
    var total: nat
    var used: nat
    var reserved: nat
    var next: nat
    ghost var free: set<nat>

    ghost predicate Valid()
      reads this, bmp
    {
      && bmp.Length == PageCount() * GROUP
      && 0 < bmpSize <= bmp.Length
      && next < PageCount()
      && AllTruthful(bmp[..])
      && free == FreePages(bmp[..])
      && (forall i :: 0 <= i < bmp.Length && bmp[i].free ==> i < bmpSize)
      && used + |free| == total
      && used + reserved <= total
    }

    /** The number of groups. */
    function PageCount(): nat {
      (bmpSize + GROUP - 1) / GROUP
    }

    /** Takes a bitmap in any state that satisfies the invariant. */
    constructor (bitmap: array<Entry>, size: nat, usedPages: nat, limit: nat)
      requires 0 < size <= bitmap.Length
      requires bitmap.Length == (size + GROUP - 1) / GROUP * GROUP
      requires AllTruthful(bitmap[..])
      requires forall i :: 0 <= i < bitmap.Length && bitmap[i].free ==> i < size
      ensures Valid()
      ensures bmp == bitmap && bmpSize == size && hardLimit == limit
      ensures free == FreePages(bitmap[..]) && used == usedPages && reserved == 0
    {
      bmp := bitmap;
      bmpSize := size;
      hardLimit := limit;
      used := usedPages;
      reserved := 0;
      next := 0;
      free := FreePages(bitmap[..]);
      new;
      // the count of free pages is what the constructor's scan adds up
      var n := 0;
      ghost var seen: set<nat> := {};
      for i := 0 to bmp.Length
        invariant seen == set k | 0 <= k < i && bmp[k].free
        invariant n == |seen|
      {
        if bmp[i].free {
          n := n + 1;
          seen := seen + {i};
        }
      }
      assert seen == free;
      total := used + n;
    }

    method Allocate(mode: Mode) returns (page: nat)
      requires Valid()
      requires mode.Take? ==> reserved > 0
      requires mode.MustSucceed? ==> used + reserved < total
      modifies this`used, this`reserved, this`next, this`free, bmp
      ensures Valid()
      ensures mode.Ordinary? && old(used + reserved + hardLimit >= total) ==>
                page == 0 && free == old(free) && used == old(used) && reserved == old(reserved)
                && next == old(next) && bmp[..] == old(bmp[..])
      ensures !(mode.Ordinary? && old(used + reserved + hardLimit >= total)) ==>
                && page in old(free)
                && free == old(free) - {page}
                && used == old(used) + 1
                && reserved == old(reserved) - (if mode.Take? then 1 else 0)
                && Chosen(old(free), page, old(next)) && next == page / GROUP
    {
      if mode.Ordinary? && used + reserved + hardLimit >= total {
        return 0;
      }
      FreeExists();
      var g := ChooseGroup();
      next := g;
      page := HighestFree(g);
      HighestIsChosen(g, page, old(next));
      TakePage(page);
      if mode.Take? {
        reserved := reserved - 1;
      }
      used := used + 1;
    }

    lemma HighestIsChosen(g: nat, page: nat, next0: nat)
      requires Valid() && g * GROUP <= page < (g + 1) * GROUP && page < bmpSize && bmp[page].free
      requires forall i :: g * GROUP <= i < (g + 1) * GROUP && bmp[i].free ==> i <= page
      requires forall q :: q in free ==> GoesFirst(g, q / GROUP, next0)
      ensures Chosen(free, page, next0) && g == page / GROUP
    {
      assert page / GROUP == g;
      forall q | q in free && q / GROUP == g ensures q <= page {
        assert g * GROUP <= q < (g + 1) * GROUP && bmp[..][q].free;
      }
      assert bmp[..][page].free;
    }

    lemma Accounting()
      requires Valid()
      ensures forall p :: p in free ==> p < bmpSize
      ensures used + reserved <= total
    {
    }

    lemma FreeExists()
      requires Valid()
      requires used < total
      ensures exists i :: 0 <= i < bmp.Length && bmp[i].free
    {
      assert free != {};
      var i :| i in free;
      assert bmp[..][i].free;
    }

    /** The wrap-around scan for a group with a free page.  Running out of
        groups is the source's bugcheck; it is not reachable. */
    method ChooseGroup() returns (page: nat)
      requires Valid()
      requires exists i :: 0 <= i < bmp.Length && bmp[i].free
      ensures page < PageCount()
      ensures exists i :: page * GROUP <= i < (page + 1) * GROUP && bmp[i].free
      ensures forall q :: q in free ==> GoesFirst(page, q / GROUP, next)
    {
      var count := PageCount();
      page := next;
      ghost var steps := 0;
      ghost var someFree :| 0 <= someFree < bmp.Length && bmp[someFree].free;
      while true
        invariant page < count && steps < count
        invariant page == if next + steps < count then next + steps else next + steps - count
        invariant forall q :: q in free ==> GoesFirst(page, q / GROUP, next)
        decreases count - steps
      {
        var cur := bmp[page * GROUP];
        GroupExhausted(bmp[..], page);
        assert Truthful(bmp[..], page * GROUP);
        assert forall q :: q in free && q / GROUP == page ==> page * GROUP <= q < (page + 1) * GROUP && bmp[..][q].free;
        assert someFree in free && someFree / GROUP < count;
        if !(cur.solid && !cur.free) {
          return;
        }
        page := page + 1;
        if page == count {
          page := 0;
        }
        if page == next {
          assert false;
        }
        steps := steps + 1;
      }
    }

    /** Binary search for the boundary between entries that are not solid and
        entries that are; it lands on the highest free page of the group. */
    method HighestFree(page: nat) returns (res: nat)
      requires Valid()
      requires page < PageCount()
      requires exists i :: page * GROUP <= i < (page + 1) * GROUP && bmp[i].free
      ensures page * GROUP <= res < (page + 1) * GROUP && res < bmpSize
      ensures bmp[res].free && bmp[res].solid
      ensures forall i :: page * GROUP <= i < (page + 1) * GROUP && bmp[i].free ==> i <= res
      ensures forall i :: page * GROUP <= i < res ==> !bmp[i].solid
    {
      var base := page * GROUP;
      var head, tail := 0, GROUP;
      ghost var s := bmp[..];
      assert forall i :: base <= i < base + GROUP ==> GroupEnd(i) == base + GROUP;
      while head + 1 < tail
        invariant 0 <= head < tail <= GROUP
        invariant head == 0 || !bmp[base + head].solid
        invariant tail == GROUP || bmp[base + tail].solid
      {
        var mid := (head + tail) / 2;
        if bmp[base + mid].solid {
          tail := mid;
        } else {
          head := mid;
        }
      }
      assert Truthful(s, base + GROUP - 1);
      assert NoneAbove(s, base + GROUP - 1);
      if !bmp[base + head].solid {
        head := head + 1;
      }
      res := base + head;
      assert s[res].solid;
      assert Truthful(s, res);
      if head > 0 {
        assert !s[res - 1].solid;
        assert Truthful(s, res - 1);
        assert NoneAbove(s, res);
        assert s[res].free;
        forall i | base <= i < res ensures !bmp[i].solid {
          assert Truthful(s, i);
          SolidUpward(s, i, res - 1);
        }
      }
    }

    /** Clears `free` of the highest free page of its group and repairs the
        `solid` bits below it. */
    method TakePage(page: nat)
      requires Valid()
      requires page < bmp.Length && bmp[page].free && bmp[page].solid
      requires forall i :: page / GROUP * GROUP <= i < page ==> !bmp[i].solid
      modifies bmp, this`free
      ensures AllTruthful(bmp[..])
      ensures free == old(free) - {page} && free == FreePages(bmp[..])
      ensures |free| == old(|free|) - 1
      ensures forall i :: 0 <= i < bmp.Length && bmp[i].free ==> old(bmp[i].free)
    {
      ghost var s0 := bmp[..];
      bmp[page] := bmp[page].(free := false);
      ghost var stop := SetSolidBelow(page / GROUP * GROUP, page);
      RepairedAfterTake(s0, bmp[..], page, stop);
      free := free - {page};
      OneFreeLess(s0, bmp[..], page);
    }

    /** Sets solid bits downwards from the page to the next free one, or to base. */
    method SetSolidBelow(base: nat, page: nat) returns (ghost stop: nat)
      requires base <= page < bmp.Length
      modifies bmp
      ensures base <= stop <= page && (stop == base || (stop < page && bmp[stop].free))
      ensures forall i :: 0 <= i < bmp.Length ==> bmp[i].free == old(bmp[i].free)
      ensures forall i :: stop <= i < page ==> bmp[i].solid
      ensures forall i :: stop < i < page ==> !bmp[i].free
      ensures forall i :: 0 <= i < bmp.Length && !(stop <= i < page) ==> bmp[i].solid == old(bmp[i].solid)
    {
      var head := page - base;
      stop := page;
      while head > 0
        invariant 0 <= head <= page - base && stop == base + head
        invariant forall i :: 0 <= i < bmp.Length ==> bmp[i].free == old(bmp[i].free)
        invariant forall i :: stop <= i < page ==> bmp[i].solid && !bmp[i].free
        invariant forall i :: 0 <= i < bmp.Length && !(stop <= i < page) ==> bmp[i].solid == old(bmp[i].solid)
      {
        head := head - 1;
        bmp[base + head] := bmp[base + head].(solid := true);
        stop := base + head;
        if bmp[base + head].free {
          break;
        }
      }
    }

    lemma OneFreeLess(s0: seq<Entry>, s: seq<Entry>, page: nat)
      requires |s| == |s0| && page < |s| && s0[page].free
      requires forall i :: 0 <= i < |s| ==> s[i].free == (s0[i].free && i != page)
      ensures FreePages(s) == FreePages(s0) - {page} && |FreePages(s)| == |FreePages(s0)| - 1
    {
      assert page in FreePages(s0);
    }

    lemma RepairedAfterTake(s0: seq<Entry>, s: seq<Entry>, page: nat, stop: nat)
      requires AllTruthful(s0) && |s| == |s0| && page < |s|
      requires s0[page].free && s0[page].solid
      requires page / GROUP * GROUP <= stop <= page
      requires forall i :: 0 <= i < |s| ==> s[i].free == (s0[i].free && i != page)
      requires forall i :: page / GROUP * GROUP <= i < page ==> !s0[i].solid
      requires forall i :: stop <= i < page ==> s[i].solid
      requires forall i :: 0 <= i < |s| && !(stop <= i < page) ==> s[i].solid == s0[i].solid
      requires forall i :: stop < i < page ==> !s[i].free
      requires stop == page / GROUP * GROUP || (stop < page && s[stop].free)
      ensures AllTruthful(s)
    {
      var base := page / GROUP * GROUP;
      forall i | 0 <= i < |s| ensures Truthful(s, i) {
        assert Truthful(s0, i) && Truthful(s0, page);
        if i / GROUP != page / GROUP {
          assert GroupEnd(i) <= base || base + GROUP <= i;
          assert NoneAbove(s, i) <==> NoneAbove(s0, i);
        } else if i >= page {
          assert NoneAbove(s, i) <==> NoneAbove(s0, i);
        } else if i >= stop {
          assert GroupEnd(i) == GroupEnd(page);
          assert NoneAbove(s0, page);
          assert NoneAbove(s, i);
        } else {
          assert GroupEnd(i) == GroupEnd(page);
          assert stop > base;
          assert s[stop].free;
          assert !NoneAbove(s, i);
        }
      }
    }

    /** Sets pages aside: a later Allocate(Take) cannot fail. */
    method Reserve(pageCount: nat) returns (ok: bool)
      requires Valid()
      modifies this`reserved
      ensures Valid()
      ensures ok <==> old(used + reserved) + pageCount + hardLimit < total
      ensures reserved == old(reserved) + (if ok then pageCount else 0)
    {
      if used + reserved + pageCount + hardLimit < total {
        reserved := reserved + pageCount;
        return true;
      }
      return false;
    }

    /** Releasing a page that is already free is the source's bugcheck. */
    method Release(page: nat)
      requires Valid()
      requires page < bmpSize && page !in free
      requires used > 0
      modifies this`used, this`free, bmp
      ensures Valid()
      ensures free == old(free) + {page} && used == old(used) - 1
    {
      FreePage(page);
      used := used - 1;
    }

    /** Sets `free` of a page and clears the `solid` bits below it, stopping at
        the first one that is clear already. */
    method FreePage(page: nat)
      requires Valid()
      requires page < bmp.Length && page !in free
      modifies bmp, this`free
      ensures AllTruthful(bmp[..])
      ensures free == old(free) + {page} && free == FreePages(bmp[..])
      ensures |free| == old(|free|) + 1
      ensures forall i :: 0 <= i < bmp.Length && bmp[i].free ==> old(bmp[i].free) || i == page
    {
      ghost var s0 := bmp[..];
      assert !s0[page].free;
      bmp[page] := bmp[page].(free := true);
      ghost var stop := ClearSolidBelow(page);
      RepairedAfterRelease(s0, bmp[..], page, stop);
      free := free + {page};
      assert free == FreePages(bmp[..]);
    }

    method ClearSolidBelow(page: nat) returns (ghost stop: nat)
      requires page < bmp.Length
      modifies bmp
      ensures page / GROUP * GROUP <= stop <= page
      ensures stop == page / GROUP * GROUP || !old(bmp[stop].solid)
      ensures forall i :: 0 <= i < bmp.Length ==> bmp[i].free == old(bmp[i].free)
      ensures forall i :: stop <= i < page ==> !bmp[i].solid
      ensures forall i :: 0 <= i < bmp.Length && !(stop <= i < page) ==> bmp[i].solid == old(bmp[i].solid)
    {
      var p := page;
      ghost var base := page / GROUP * GROUP;
      stop := page;
      while p % GROUP != 0
        invariant base <= p <= page && p % GROUP == p - base
        invariant stop == p
        invariant forall i :: 0 <= i < bmp.Length ==> bmp[i].free == old(bmp[i].free)
        invariant forall i :: p <= i < page ==> !bmp[i].solid
        invariant forall i :: 0 <= i < bmp.Length && !(p <= i < page) ==> bmp[i].solid == old(bmp[i].solid)
      {
        p := p - 1;
        stop := p;
        if !bmp[p].solid {
          return;
        }
        bmp[p] := bmp[p].(solid := false);
      }
    }

    lemma RepairedAfterRelease(s0: seq<Entry>, s: seq<Entry>, page: nat, stop: nat)
      requires AllTruthful(s0) && |s| == |s0| && page < |s|
      requires page / GROUP * GROUP <= stop <= page
      requires forall i :: 0 <= i < |s| ==> s[i].free == (s0[i].free || i == page)
      requires forall i :: stop <= i < page ==> !s[i].solid
      requires forall i :: 0 <= i < |s| && !(stop <= i < page) ==> s[i].solid == s0[i].solid
      requires stop == page / GROUP * GROUP || !s0[stop].solid
      ensures AllTruthful(s)
    {
      var base := page / GROUP * GROUP;
      forall i | 0 <= i < |s| ensures Truthful(s, i) {
        assert Truthful(s0, i);
        if i / GROUP != page / GROUP {
          assert GroupEnd(i) <= base || base + GROUP <= i;
          assert NoneAbove(s, i) <==> NoneAbove(s0, i);
        } else if i >= page {
          assert NoneAbove(s, i) <==> NoneAbove(s0, i);
        } else {
          assert GroupEnd(i) == GroupEnd(page);
          assert s[page].free;
          assert !NoneAbove(s, i);
          if i < stop {
            assert Truthful(s0, stop);
            SolidUpward(s0, i, stop);
          }
        }
      }
    }

    /** The self check: in every group a run of entries that are not solid, then
        one that is solid and free (or the first entry, solid), and from there on
        only entries that are solid and used; and the free pages add up. */
    method CheckIntegrity() returns (ok: bool)
      requires bmp.Length == PageCount() * GROUP
      ensures ok <==> AllTruthful(bmp[..]) && |FreePages(bmp[..])| + used == total
    {
      var found := 0;
      var page := 0;
      while page < PageCount()
        invariant page <= PageCount()
        invariant forall g: nat :: g < page ==> GroupTruthful(bmp[..], g)
        invariant found == |FreeBetween(bmp[..], 0, page * GROUP)|
      {
        var good: bool, n: nat;
        good, n := CheckGroup(page);
        if !good {
          NotAllTruthful(bmp[..], page);
          return false;
        }
        FreeJoin(bmp[..], 0, page * GROUP, (page + 1) * GROUP);
        found := found + n;
        page := page + 1;
      }
      GroupsAreAll(bmp[..], PageCount());
      assert FreeBetween(bmp[..], 0, bmp.Length) == FreePages(bmp[..]);
      return found + used == total;
    }

    method CheckGroup(g: nat) returns (ok: bool, found: nat)
      requires bmp.Length == PageCount() * GROUP && g < PageCount()
      ensures ok <==> GroupTruthful(bmp[..], g)
      ensures ok ==> found == |FreeBetween(bmp[..], g * GROUP, (g + 1) * GROUP)|
    {
      var b := g * GROUP;
      assert (g + 1) * GROUP <= bmp.Length;
      ghost var s := bmp[..];
      ghost var p: nat := b;
      var pierce := true;
      found := 0;
      var i := 0;
      NoneFreeYet(s, b);
      while i < GROUP
        invariant i <= GROUP && found == |FreeBetween(s, b, b + i)|
        invariant pierce ==> NoneSolid(s, b, b + i)
        invariant !pierce ==> b <= p < b + i && PiercedAt(s, b, p, b + i)
      {
        var cur := bmp[b + i];
        FreeNext(s, b, b + i);
        if pierce {
          if cur.solid {
            if cur.free || i == 0 {
              pierce, p := false, b + i;
            } else {
              SolidTooEarly(s, g, b + i);
              return false, found;
            }
          }
          if cur.free {
            found := found + 1;
          }
        } else if cur.free || !cur.solid {
          WrongBehind(s, g, p, b + i);
          return false, found;
        }
        i := i + 1;
      }
      if pierce {
        NeverSolid(s, g);
        return false, found;
      }
      PiercedIsTruthful(s, g, p);
      return true, found;
    }
  }

  // ---------------------------------------------------------------------
  // Why the self check is right
  // ---------------------------------------------------------------------

  ghost predicate GroupTruthful(s: seq<Entry>, g: nat) {
    (g + 1) * GROUP <= |s| && forall i :: g * GROUP <= i < (g + 1) * GROUP ==> Truthful(s, i)
  }

  ghost predicate NoneSolid(s: seq<Entry>, lo: nat, hi: nat) {
    hi <= |s| && forall j :: lo <= j < hi ==> !s[j].solid
  }

  ghost predicate PiercedAt(s: seq<Entry>, lo: nat, p: nat, hi: nat) {
    && lo <= p < hi <= |s| && NoneSolid(s, lo, p) && s[p].solid && (s[p].free || p == lo)
    && forall j :: p < j < hi ==> s[j].solid && !s[j].free
  }

  ghost function FreeBetween(s: seq<Entry>, lo: nat, hi: nat): set<nat> {
    set i: nat | lo <= i < hi && i < |s| && s[i].free
  }

  lemma NoneFreeYet(s: seq<Entry>, lo: nat)
    ensures FreeBetween(s, lo, lo) == {}
  {
  }

  lemma FreeNext(s: seq<Entry>, lo: nat, i: nat)
    requires lo <= i < |s|
    ensures |FreeBetween(s, lo, i + 1)| == |FreeBetween(s, lo, i)| + if s[i].free then 1 else 0
  {
    if s[i].free {
      assert FreeBetween(s, lo, i + 1) == FreeBetween(s, lo, i) + {i};
    } else {
      assert FreeBetween(s, lo, i + 1) == FreeBetween(s, lo, i);
    }
  }

  lemma FreeJoin(s: seq<Entry>, lo: nat, mid: nat, hi: nat)
    requires lo <= mid <= hi
    ensures |FreeBetween(s, lo, hi)| == |FreeBetween(s, lo, mid)| + |FreeBetween(s, mid, hi)|
  {
    assert FreeBetween(s, lo, hi) == FreeBetween(s, lo, mid) + FreeBetween(s, mid, hi);
    assert FreeBetween(s, lo, mid) !! FreeBetween(s, mid, hi);
  }

  lemma NotAllTruthful(s: seq<Entry>, g: nat)
    requires !GroupTruthful(s, g) && (g + 1) * GROUP <= |s|
    ensures !AllTruthful(s)
  {
  }

  lemma GroupsAreAll(s: seq<Entry>, n: nat)
    requires |s| == n * GROUP && forall g: nat :: g < n ==> GroupTruthful(s, g)
    ensures AllTruthful(s)
  {
    forall i | 0 <= i < |s| ensures Truthful(s, i) {
      assert GroupTruthful(s, i / GROUP);
    }
  }

  lemma SameGroup(g: nat, i: nat)
    requires g * GROUP <= i < (g + 1) * GROUP
    ensures GroupEnd(i) == (g + 1) * GROUP
  {
    assert i / GROUP == g;
  }

  lemma SolidTooEarly(s: seq<Entry>, g: nat, i: nat)
    requires (g + 1) * GROUP <= |s| && g * GROUP < i < (g + 1) * GROUP
    requires !s[i - 1].solid && s[i].solid && !s[i].free
    ensures !GroupTruthful(s, g)
  {
    SameGroup(g, i);
    SameGroup(g, i - 1);
    if Truthful(s, i) {
      assert NoneAbove(s, i - 1);
    }
    assert !Truthful(s, i) || !Truthful(s, i - 1);
  }

  lemma WrongBehind(s: seq<Entry>, g: nat, p: nat, i: nat)
    requires (g + 1) * GROUP <= |s| && g * GROUP <= p < i < (g + 1) * GROUP
    requires s[p].solid && (s[i].free || !s[i].solid)
    ensures !GroupTruthful(s, g)
  {
    SameGroup(g, i);
    SameGroup(g, p);
    if Truthful(s, p) {
      assert NoneAbove(s, p);
      assert NoneAbove(s, i);
    }
    assert !Truthful(s, i) || !Truthful(s, p);
  }

  lemma NeverSolid(s: seq<Entry>, g: nat)
    requires NoneSolid(s, g * GROUP, (g + 1) * GROUP)
    ensures !GroupTruthful(s, g)
  {
    var i := (g + 1) * GROUP - 1;
    SameGroup(g, i);
    assert NoneAbove(s, i);
    assert !Truthful(s, i);
  }

  lemma PiercedIsTruthful(s: seq<Entry>, g: nat, p: nat)
    requires PiercedAt(s, g * GROUP, p, (g + 1) * GROUP)
    ensures GroupTruthful(s, g)
  {
    forall i | g * GROUP <= i < (g + 1) * GROUP ensures Truthful(s, i) {
      SameGroup(g, i);
      if i >= p {
        assert NoneAbove(s, i);
      } else {
        assert s[p].free && !NoneAbove(s, i);
      }
    }
  }
}
