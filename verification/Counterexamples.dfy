/** Runs in which the kernel does less than one might expect, from the constructors
    on.  The exact conditions stand in the modules of the parts concerned. */
module Counterexamples {
  import opened PhysicalMemory
  import opened PageTables
  import opened UserSpaces
  import SF = SpaceFamilies
  import CC = ClusterChains
  import L = Locks

  // ---------------------------------------------------------------------
  // Addresses above 4 GB
  // ---------------------------------------------------------------------

  /** The most frames a space without committed pages can own. */
  ghost function Bookkeeping(): nat {
    2 + SLOTS + TABLES
  }

  lemma {:induction false} FewNumbers(s: set<nat>, n: nat)
    requires forall x :: x in s ==> x < n
    ensures |s| <= n
    decreases n
  {
    if n > 0 {
      FewNumbers(s - {n - 1}, n - 1);
      if n - 1 in s {
        assert s == (s - {n - 1}) + {n - 1};
      } else {
        assert s == s - {n - 1};
      }
    }
  }

  lemma FewFrames(s: UserSpace)
    requires s.Valid() && forall p: nat :: !StateAt(s.view, p).Committed?
    ensures |s.F| <= Bookkeeping()
  {
    hide PM.Valid, Owned, Regular, StateAt;
    s.UsedPagesIsCensus();
    assert CommittedPages(s.view) == {};
    s.Parts(0);
    FewNumbers(s.dirs.Keys, SLOTS);
    FewNumbers(s.tables.Keys, TABLES);
    assert |s.dirs| == |s.dirs.Keys| && |s.tables| == |s.tables.Keys|;
  }

  /** There is room for everything a space without committed pages can need. */
  ghost predicate Ample(s: UserSpace)
    reads s, s.pm
  {
    s.pm.used - |s.F| + Bookkeeping() + s.pm.reserved + s.pm.hardLimit < s.pm.total
  }

  lemma AmpleIsNotLow(s: UserSpace)
    requires s.Valid() && Ample(s) && forall p: nat :: !StateAt(s.view, p).Committed?
    ensures !s.LowMemory()
  {
    FewFrames(s);
  }

  /** What the allocator has less of the space has more of. */
  lemma SameElse(F: map<Place, nat>, G: map<Place, nat>, free: set<nat>, now: set<nat>, limit: nat, used: int,
      used': int, total: int)
    requires Owned(F, free, limit) && Owned(G, now, limit) && Stock(now, G) == Stock(free, F)
    requires used + |free| == total && used' + |now| == total
    ensures used - |F| == used' - |G|
  {
    SF.StockCount(F, free, limit);
    SF.StockCount(G, now, limit);
  }

  ghost predicate AllFree(v: View) {
    forall p: nat :: StateAt(v, p) == Free
  }

  /** The pages from the first usable one up to 4 GB are reserved, all others free. */
  ghost predicate FullBelow(v: View) {
    forall p: nat :: StateAt(v, p) == if ENTRIES <= p < WRAP then PageState.Reserved else Free
  }

  method NewSpace(phys: PM) returns (s: UserSpace)
    requires phys.Valid() && 0 !in phys.free && phys.used + phys.reserved + phys.hardLimit + Bookkeeping() < phys.total
    modifies phys`used, phys`reserved, phys`next, phys`free, phys.bmp
    ensures fresh(s) && fresh(s.Repr) && s.pm == phys && s.Valid() && Ample(s) && AllFree(s.view)
  {
    hide PM.Valid, UserSpace.Valid, Owned, Stock;
    SF.AllAreCounted(phys);
    s := new UserSpace(phys);
    s.Parts(0);
    SF.AllAreCounted(phys);
    NothingYet(s);
    SF.StockCount(s.F, phys.free, phys.bmpSize);
  }

  lemma NothingYet(s: UserSpace)
    requires Objects(s.tables, s.Repr) && s.view == ViewOf(s.tables, s.Repr) && s.tables == map[]
    ensures AllFree(s.view)
  {
    ViewKeys(s.tables, s.Repr);
  }

  method Fill(s: UserSpace)
    requires s.Valid() && Ample(s) && AllFree(s.view)
    modifies s, s.Repr, s.pm`used, s.pm`reserved, s.pm`next, s.pm`free, s.pm.bmp
    ensures s.Valid() && Ample(s) && FullBelow(s.view) && fresh(s.Repr - old(s.Repr))
  {
    hide *;
    Sizes();
    s.Parts(0);
    SF.AllAreCounted(s.pm);
    AmpleIs(s);
    ghost var v, F, free, used := s.view, s.F, s.pm.free, s.pm.used;
    CanFill(v);
    var ok := s.ReserveFixed(ENTRIES, WRAP - ENTRIES);
    s.Parts(0);
    SF.AllAreCounted(s.pm);
    SameElse(F, s.F, free, s.pm.free, s.pm.bmpSize, used, s.pm.used, s.pm.total);
    AmpleIs(s);
    if !ok {
      StillNone(v, s.view);
      AmpleIsNotLow(s);
    }
    Filled(v, s.view);
  }

  lemma Sizes()
    ensures ENTRIES == 0x200 && WRAP == 0x100000
  {
  }

  lemma AmpleIs(s: UserSpace)
    ensures Ample(s) <==> s.pm.used - |s.F| + Bookkeeping() + s.pm.reserved + s.pm.hardLimit < s.pm.total
  {
  }

  lemma CanFill(v: View)
    requires AllFree(v)
    ensures !Refusable(v, ENTRIES, WRAP - ENTRIES)
  {
  }

  lemma StillNone(v: View, w: View)
    requires AllFree(v) && SamePages(v, w)
    ensures forall p: nat :: !StateAt(w, p).Committed?
  {
  }

  lemma Filled(v: View, w: View)
    requires AllFree(v) && RangeBecomes(v, w, ENTRIES, WRAP - ENTRIES, PageState.Reserved)
    ensures FullBelow(w)
  {
  }

  /** Reserving one page more succeeds, above 4 GB, and tells the caller an address below. */
  method AddressIsWrong(phys: PM) returns (s: UserSpace, res: nat, ghost place: Option<nat>)
    requires phys.Valid() && 0 !in phys.free && phys.used + phys.reserved + phys.hardLimit + Bookkeeping() < phys.total
    modifies phys`used, phys`reserved, phys`next, phys`free, phys.bmp
    ensures fresh(s) && s.Valid() && place.Some? && StateAt(s.view, place.value) == PageState.Reserved
    ensures res < WRAP <= place.value
  {
    hide *;
    s := NewSpace(phys);
    Fill(s);
    res, place := OneMore(s);
  }

  method OneMore(s: UserSpace) returns (res: nat, ghost place: Option<nat>)
    requires s.Valid() && Ample(s) && FullBelow(s.view)
    modifies s, s.Repr, s.pm`used, s.pm`reserved, s.pm`next, s.pm`free, s.pm.bmp
    ensures s.Valid() && fresh(s.Repr - old(s.Repr)) && place.Some?
      && StateAt(s.view, place.value) == PageState.Reserved
    ensures res < WRAP <= place.value
  {
    hide *;
    Sizes();
    s.Parts(0);
    SF.AllAreCounted(s.pm);
    AmpleIs(s);
    ghost var v, F, free, used := s.view, s.F, s.pm.free, s.pm.used;
    ghost var lost: set<nat>;
    res, place, lost := s.ReserveAny(1);
    s.Parts(0);
    SF.AllAreCounted(s.pm);
    SameElse(F, s.F, free, s.pm.free, s.pm.bmpSize, used, s.pm.used, s.pm.total);
    AmpleIs(s);
    if place.None? {
      NoneCommitted(v, s.view, lost + Spot(place));
      AmpleIsNotLow(s);
      TableLeft(s, v, lost);
    }
    OneAbove(v, s.view, lost, place);
  }

  lemma NoneCommitted(v: View, w: View, lost: set<nat>)
    requires FullBelow(v) && RangesBecome(v, w, lost, 1)
    ensures forall p: nat :: !StateAt(w, p).Committed?
  {
  }

  /** The second table above 4 GB still has room when the search is over. */
  lemma TableLeft(s: UserSpace, v: View, lost: set<nat>)
    requires s.Valid() && FullBelow(v) && RangesBecome(v, s.view, lost + Spot(None), 1) && AllUntold(lost)
    ensures !SearchedBut(s.view, TABLES, 1, lost)
  {
    var m := LOW + 1;
    if m in s.view {
      RoomLeft(s, v, lost, m);
    }
  }

  lemma RoomLeft(s: UserSpace, v: View, lost: set<nat>, m: nat)
    requires s.Valid() && FullBelow(v) && RangesBecome(v, s.view, lost + Spot(None), 1) && AllUntold(lost)
    requires m == LOW + 1 && m in s.view
    ensures !Cramped(s.view[m], 1) && Page(m, 0) !in lost
  {
    hide *;
    Sizes();
    StaysFree(v, s.view, lost, m);
    s.Parts(0);
    s.ViewTable(m);
    s.TableFacts(m);
    FirstIsFree(s.view, m);
    s.tables[m].FieldIsCramped(1);
    s.tables[m].FieldIsExactAtEnds();
  }

  lemma StaysFree(v: View, w: View, lost: set<nat>, m: nat)
    requires FullBelow(v) && RangesBecome(v, w, lost + Spot(None), 1) && AllUntold(lost) && m == LOW + 1
    ensures Page(m, 0) !in lost && StateAt(w, Page(m, 0)) == Free
  {
    assert Told(Page(m, 0)) == ENTRIES;
    assert lost + Spot(None) == lost;
    assert !InRanges(lost, 1, Page(m, 0));
  }

  lemma FirstIsFree(v: View, m: nat)
    requires m in v && |v[m]| == ENTRIES && StateAt(v, Page(m, 0)) == Free
    ensures Unused(v[m][0])
  {
  }

  lemma OneAbove(v: View, w: View, lost: set<nat>, place: Option<nat>)
    requires FullBelow(v) && place.Some? && RangesBecome(v, w, lost + Spot(place), 1)
      && AllWereFree(v, lost + Spot(place), 1)
    ensures StateAt(w, place.value) == PageState.Reserved && Told(place.value) < WRAP <= place.value
  {
    assert place.value in lost + Spot(place);
    assert !Refusable(v, place.value, 1) && StateAt(v, place.value) == Free;
    assert InRanges(lost + Spot(place), 1, place.value);
  }

  // ---------------------------------------------------------------------
  // Growing a file to position 0
  // ---------------------------------------------------------------------

  /** A volume of four clusters with one file, whose chain is 2, 3 or just 2. */
  method SmallVolume(two: bool) returns (vol: CC.Volume)
    ensures fresh(vol) && fresh(vol.fat) && fresh(vol.bits) && vol.Valid()
    ensures vol.chains == [if two then [2, 3] else [2]] && vol.bits[..] ==
      [true, two, false, false] && vol.lastIndex == 0
  {
    var fat := new nat[6] [0, 0, if two then 3 else CC.TAIL_MARK, CC.TAIL_MARK, 0, 0];
    var bits := new bool[4] [true, two, false, false];
    ghost var chain := if two then [2, 3] else [2];
    SmallIsOk(fat[..], bits[..], two);
    vol := new CC.Volume(fat, bits, [chain]);
  }

  lemma SmallIsOk(fat: seq<nat>, bits: seq<bool>, two: bool)
    requires fat == [0, 0, if two then 3 else CC.TAIL_MARK, CC.TAIL_MARK, 0, 0] && bits == [true, two, false, false]
    ensures CC.VolumeOk(fat, bits, [if two then [2, 3] else [2]])
  {
    var chain := if two then [2, 3] else [2];
    assert [chain][0] == chain;
  }

  method SmallChain(two: bool) returns (vol: CC.Volume, c: CC.ClusterChain)
    ensures fresh(vol) && fresh(vol.fat) && fresh(vol.bits) && fresh(c) && c.vol == vol && !c.linear && c.id == 0
      && c.first != 0
    ensures c.Valid() && c.Registered() && vol.lastIndex == 0
    ensures vol.chains == [if two then [2, 3] else [2]] && vol.bits[..] == [true, two, false, false]
  {
    vol := SmallVolume(two);
    c := new CC.ClusterChain(vol, 2, false, 4, 0);
  }

  /** Asked for position 0, which a chain of two clusters has, expand fails, and one
      cluster more is marked that belongs to no chain. */
  method ExpandLeaks() returns (vol: CC.Volume, ok: bool)
    ensures fresh(vol) && !ok && vol.chains == [[2, 3]]
    ensures exists p: nat :: CC.Leaked([true, true, false, false], vol.bits[..], vol.chains, p)
  {
    hide *;
    var c;
    vol, c := SmallChain(true);
    ThirdIsFound(vol.bits[..]);
    CC.StuckIs([2, 3], 0);
    ok := c.Expand(0);
  }

  /** Asked for position 0, which a chain of one cluster has, expand adds a second. */
  method ExpandAddsOne() returns (vol: CC.Volume, ok: bool)
    ensures fresh(vol) && ok && |vol.chains| == 1 && |vol.chains[0]| == 2
  {
    hide *;
    var c;
    vol, c := SmallChain(false);
    ghost var before, bits := vol.chains, vol.bits[..];
    CC.StuckIs([2], 0);
    ok := c.Expand(0);
    SecondLink(before, vol.chains, bits, ok);
  }

  lemma SecondLink(before: seq<seq<nat>>, after: seq<seq<nat>>, bits: seq<bool>, ok: bool)
    requires before == [[2]] && CC.Grown(before, after, 0) && bits == [true, false, false, false]
    requires if ok then |after[0]| == 2 else |after[0]| < 2 && (after == before ==> CC.NoneFound(bits, 0))
    ensures ok && |after| == 1 && |after[0]| == 2
  {
    ThirdIsFound(bits);
    SameIfShort(before, after);
  }

  lemma SameIfShort(before: seq<seq<nat>>, after: seq<seq<nat>>)
    requires before == [[2]] && CC.Grown(before, after, 0)
    ensures |after| == 1 && (|after[0]| < 2 ==> after == before)
  {
    assert |before[0]| == 1 && before[0] <= after[0];
    assert |after[0]| == 1 ==> after[0] == before[0];
  }

  lemma ThirdIsFound(bits: seq<bool>)
    requires |bits| == 4 && !bits[2]
    ensures !CC.NoneFound(bits, 0)
  {
    assert CC.Scanned(0, 2);
  }

  // ---------------------------------------------------------------------
  // A semaphore that is full
  // ---------------------------------------------------------------------

  /** A signal to a semaphore at its largest count takes all units away. */
  method SignalTakesAll() returns (s: L.Semaphore)
    ensures fresh(s) && s.total == 0xFFFF_FFFF && s.count == 0 && s.acquired == 0
  {
    s := new L.Semaphore(0xFFFF_FFFF);
    var woken := s.Signal();
  }
}
