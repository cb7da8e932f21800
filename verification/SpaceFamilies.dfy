/** All the user spaces of the kernel (kernel/memory/user_vspace.cpp), which take
    their frames from the one page allocator.

    What is proved of one space holds of each of them, whatever the others do. */
module SpaceFamilies {
  import opened PhysicalMemory
  import opened PageTables
  import opened UserSpaces

  // ---------------------------------------------------------------------
  // Who owns which frame
  // ---------------------------------------------------------------------

  /** The frames of all the spaces. */
  ghost function FramesOf(Fs: seq<map<Place, nat>>): set<nat> {
    set i, f | 0 <= i < |Fs| && f in Fs[i].Values :: f
  }

  /** No frame belongs to two spaces or is free, and all together are no more
      than are in use. */
  ghost predicate OwnersOk(Fs: seq<map<Place, nat>>, free: set<nat>, limit: nat, used: int) {
    && (forall i :: 0 <= i < |Fs| ==> Owned(Fs[i], free, limit))
    && (forall i, j :: 0 <= i < |Fs| && 0 <= j < |Fs| && i != j ==> Fs[i].Values !! Fs[j].Values)
    && 0 !in free && |FramesOf(Fs)| <= used
  }

  lemma {:induction false} ValuesCount(F: map<Place, nat>)
    requires forall a, b :: a in F && b in F && a != b ==> F[a] != F[b]
    ensures |F.Values| == |F|
    decreases |F|
  {
    if a :| a in F {
      MapLess(F, a);
      ValuesCount(F - {a});
      assert F[a] in F.Values;
    } else {
      assert F.Values == {};
    }
  }

  /** A space and the free frames together are as many as they were, so what the
      space has more of the allocator has less of. */
  lemma StockCount(F: map<Place, nat>, free: set<nat>, limit: nat)
    requires Owned(F, free, limit)
    ensures |Stock(free, F)| == |free| + |F| && |F.Values| == |F| && free !! F.Values
  {
    ValuesCount(F);
    assert free !! F.Values;
  }

  /** The frames of all spaces but space k. */
  ghost function Others(Fs: seq<map<Place, nat>>, k: nat): set<nat> {
    set i, f | 0 <= i < |Fs| && i != k && f in Fs[i].Values :: f
  }

  lemma FramesSplit(Fs: seq<map<Place, nat>>, k: nat)
    requires k < |Fs|
    ensures FramesOf(Fs) == Others(Fs, k) + Fs[k].Values
  {
  }

  lemma FrameCount(R: set<nat>, A: set<nat>, B: set<nat>, used: int, used': int)
    requires R !! A && R !! B && |R + A| <= used && used' - used == |B| - |A|
    ensures |R + B| <= used'
  {
    assert |R + A| == |R| + |A| && |R + B| == |R| + |B|;
  }

  /** One owner takes free frames or gives some back: the others do not notice. */
  lemma OwnersStep(Fs: seq<map<Place, nat>>, k: nat, G: map<Place, nat>, free: set<nat>, now: set<nat>, limit: nat,
      used: int, used': int)
    requires OwnersOk(Fs, free, limit, used) && k < |Fs| && Owned(G, now, limit) && 0 !in now
    requires Stock(now, G) == Stock(free, Fs[k]) && used' + |now| == used + |free|
    ensures OwnersOk(Fs[k := G], now, limit, used')
  {
    hide Owned, Stock, FramesOf, Others;
    var Gs := Fs[k := G];
    StockCount(Fs[k], free, limit);
    StockCount(G, now, limit);
    forall i | 0 <= i < |Fs| && i != k ensures Owned(Gs[i], now, limit) && Gs[i].Values !! G.Values {
      OtherOwner(Fs[i], Fs[k], G, free, now, limit);
    }
    FramesSplit(Fs, k);
    FramesSplit(Gs, k);
    OthersSame(Fs, k, G);
    OthersApart(Fs, k, Fs[k].Values);
    OthersApart(Gs, k, G.Values);
    FrameCount(Others(Fs, k), Fs[k].Values, G.Values, used, used');
  }

  lemma OthersSame(Fs: seq<map<Place, nat>>, k: nat, G: map<Place, nat>)
    requires k < |Fs|
    ensures Others(Fs[k := G], k) == Others(Fs, k)
  {
    var Gs := Fs[k := G];
    forall f ensures f in Others(Gs, k) <==> f in Others(Fs, k) {
      if f in Others(Fs, k) {
        var i :| 0 <= i < |Fs| && i != k && f in Fs[i].Values;
        assert f in Gs[i].Values;
      }
      if f in Others(Gs, k) {
        var i :| 0 <= i < |Fs| && i != k && f in Gs[i].Values;
        assert f in Fs[i].Values;
      }
    }
  }

  lemma OthersApart(Fs: seq<map<Place, nat>>, k: nat, A: set<nat>)
    requires forall i :: 0 <= i < |Fs| && i != k ==> Fs[i].Values !! A
    ensures Others(Fs, k) !! A
  {
  }

  lemma OtherOwner(E: map<Place, nat>, F: map<Place, nat>, G: map<Place, nat>, free: set<nat>, now: set<nat>,
      limit: nat)
    requires Owned(E, free, limit) && E.Values !! F.Values && Stock(now, G) == Stock(free, F) && 0 !in now
    ensures Owned(E, now, limit) && E.Values !! G.Values
  {
    forall x | x in E ensures E[x] !in now && E[x] !in G.Values {
      assert E[x] in E.Values;
      assert E[x] !in Stock(free, F);
    }
  }

  // ---------------------------------------------------------------------
  // The family
  // ---------------------------------------------------------------------

  /** What a space says of its own objects, apart from the allocator. */
  ghost predicate Local(a: UserSpace)
    reads a, a.Repr
  {
    && a !in a.Repr && a.pm !in a.Repr && a.pm.bmp !in a.Repr
    && Objects(a.tables, a.Repr) && a.view == ViewOf(a.tables, a.Repr)
    && Grid(a.dirs.Keys, a.tables.Keys)
    && Accounts(a.cr3, a.pl4te, a.dirs, TabsOf(a.tables), a.view, a.F)
    && a.usedPages == |a.F|
  }

  lemma ValidIs(a: UserSpace)
    ensures a.Valid() <==> Local(a) && a.pm.Valid() && Owned(a.F, a.pm.free, a.pm.bmpSize) && |a.F| <= a.pm.used
    ensures a.Valid() ==> 0 !in a.pm.free
  {
  }

  ghost predicate Separate(a: UserSpace, b: UserSpace)
    reads a, b
  {
    a != b && a !in b.Repr && b !in a.Repr && a.Repr !! b.Repr
  }

  ghost function Maps(spaces: seq<UserSpace>): (Fs: seq<map<Place, nat>>)
    reads spaces
    ensures |Fs| == |spaces| && forall i :: 0 <= i < |Fs| ==> Fs[i] == spaces[i].F
  {
    seq(|spaces|, i requires 0 <= i < |spaces| reads spaces => spaces[i].F)
  }

  /** All that belongs to the spaces. */
  ghost function Belongings(spaces: seq<UserSpace>): set<object>
    reads spaces
  {
    set i, o | 0 <= i < |spaces| && o in spaces[i].Repr :: o
  }

  /** Spaces that share the allocator, but no object and no frame. */
  ghost predicate Family(spaces: seq<UserSpace>, pm: PM)
    reads spaces, Belongings(spaces), pm, pm.bmp
  {
    && (forall i :: 0 <= i < |spaces| ==> spaces[i].pm == pm && Local(spaces[i]))
    && (forall i, j :: 0 <= i < |spaces| && 0 <= j < |spaces| && i != j ==> Separate(spaces[i], spaces[j]))
    && pm.Valid() && OwnersOk(Maps(spaces), pm.free, pm.bmpSize, pm.used)
  }

  /** Each space of a family is valid, and a frame of one belongs to no other. */
  lemma EachIsValid(spaces: seq<UserSpace>, pm: PM, k: nat)
    requires Family(spaces, pm) && k < |spaces|
    ensures spaces[k].pm == pm && spaces[k].Valid()
    ensures forall i :: 0 <= i < |spaces| && i != k ==> spaces[i].F.Values !! spaces[k].F.Values
  {
    hide PM.Valid, Local;
    var Fs := Maps(spaces);
    FramesSplit(Fs, k);
    StockCount(Fs[k], pm.free, pm.bmpSize);
    InUnion(Others(Fs, k), Fs[k].Values);
    ValidIs(spaces[k]);
  }

  lemma InUnion(R: set<nat>, A: set<nat>)
    ensures |A| <= |R + A|
  {
    assert |R + A| == |R - A| + |A| by {
      assert R + A == (R - A) + A;
    }
  }

  datatype Op =
    | Reserve(addr: nat, count: nat)
    | Commit(base: nat, count: nat)
    | Protect(base: nat, count: nat, attr: Attributes, stray: bool)
    | Release(base: nat, count: nat)

  /** One call of a user space. */
  method Perform(s: UserSpace, op: Op)
    requires s.Valid()
    modifies s, s.Repr, s.pm`used, s.pm`reserved, s.pm`next, s.pm`free, s.pm.bmp
    ensures s.Valid() && fresh(s.Repr - old(s.Repr))
    ensures Stock(s.pm.free, s.F) == old(Stock(s.pm.free, s.F)) && s.pm.reserved == old(s.pm.reserved)
  {
    hide *;
    s.Parts(0);
    match op
    case Reserve(addr, count) =>
      ghost var place: Option<nat>, lost: set<nat>;
      var res;
      res, place, lost := s.Reserve(addr, count);
    case Commit(base, count) =>
      var ok := s.Commit(base, count);
    case Protect(base, count, attr, stray) =>
      var ok := s.Protect(base, count, attr, stray);
    case Release(base, count) =>
      var ok := s.Release(base, count);
  }

  lemma LocalApart(a: UserSpace)
    requires Local(a)
    ensures a !in a.Repr && a.pm !in a.Repr && a.pm.bmp !in a.Repr
  {
  }

  lemma AllAreCounted(pm: PM)
    requires pm.Valid()
    ensures pm.used + |pm.free| == pm.total
  {
  }

  lemma FamilyAgain(spaces: seq<UserSpace>, pm: PM, k: nat, Fs: seq<map<Place, nat>>, free: set<nat>, used: int)
    requires k < |spaces| == |Fs|
      && (forall i :: 0 <= i < |spaces| ==> spaces[i].pm == pm && (i != k ==> Local(spaces[i]) && spaces[i].F == Fs[i]))
    requires forall i, j :: 0 <= i < |spaces| && 0 <= j < |spaces| && i != j ==> Separate(spaces[i], spaces[j])
    requires spaces[k].Valid() && OwnersOk(Fs, free, pm.bmpSize, used)
    requires Stock(pm.free, spaces[k].F) == Stock(free, Fs[k]) && used + |free| == pm.total
    ensures Family(spaces, pm)
  {
    hide Local, Stock, OwnersOk, Separate;
    ValidIs(spaces[k]);
    AllAreCounted(pm);
    OwnersStep(Fs, k, spaces[k].F, free, pm.free, pm.bmpSize, used, pm.used);
    assert Maps(spaces) == Fs[k := spaces[k].F];
  }

  /** A call of space k leaves every other space as it is, and all of them valid and apart. */
  method PerformIn(spaces: seq<UserSpace>, pm: PM, k: nat, op: Op)
    requires Family(spaces, pm) && k < |spaces|
    modifies spaces[k], spaces[k].Repr, pm`used, pm`reserved, pm`next, pm`free, pm.bmp
    ensures Family(spaces, pm) && pm.reserved == old(pm.reserved)
    ensures fresh(Belongings(spaces) - old(Belongings(spaces)))
    ensures forall i :: 0 <= i < |spaces| && i != k ==>
      spaces[i].view == old(spaces[i].view) && spaces[i].F == old(spaces[i].F) && spaces[i].Repr == old(spaces[i].Repr)
  {
    hide PM.Valid, UserSpace.Valid, Stock, OwnersOk, Objects, ViewOf, Grid, Accounts, TabsOf, Local;
    var s := spaces[k];
    forall i | 0 <= i < |spaces| ensures pm !in spaces[i].Repr && pm.bmp !in spaces[i].Repr {
      LocalApart(spaces[i]);
    }
    EachIsValid(spaces, pm, k);
    AllAreCounted(pm);
    ghost var Fs, free, used := Maps(spaces), pm.free, pm.used;
    hide Maps;
    Perform(s, op);
    forall i | 0 <= i < |spaces| && i != k ensures Local(spaces[i]) && Separate(spaces[i], s) && spaces[i].F == Fs[i] {
      assert Separate(spaces[i], s);
    }
    FamilyAgain(spaces, pm, k, Fs, free, used);
  }

  /** Any run of calls, each to any space, keeps the family and changes only the spaces called. */
  method RunAll(spaces: seq<UserSpace>, pm: PM, calls: seq<(nat, Op)>)
    requires Family(spaces, pm) && forall c :: c in calls ==> c.0 < |spaces|
    modifies spaces, Belongings(spaces), pm`used, pm`reserved, pm`next, pm`free, pm.bmp
    ensures Family(spaces, pm) && pm.reserved == old(pm.reserved)
    ensures forall i :: 0 <= i < |spaces| && NotCalled(calls, i) ==>
      spaces[i].view == old(spaces[i].view) && spaces[i].F == old(spaces[i].F)
  {
    hide *;
    ghost var start := Belongings(spaces);
    for n := 0 to |calls|
      invariant Family(spaces, pm) && pm.reserved == old(pm.reserved)
      invariant forall i :: 0 <= i < |spaces| && NotCalled(calls[..n], i) ==>
        spaces[i].view == old(spaces[i].view) && spaces[i].F == old(spaces[i].F)
      invariant forall o :: o in Belongings(spaces) && o !in start ==> fresh(o)
    {
      assert calls[n] in calls;
      InBelongings(spaces, calls[n].0);
      ghost var before := Belongings(spaces);
      label here:
      PerformIn(spaces, pm, calls[n].0, calls[n].1);
      ghost var more := Belongings(spaces) - before;
      assert fresh@here(more);
      forall o | o in Belongings(spaces) && o !in start ensures fresh(o) {
        if o in before {
          assert fresh(o);
        } else {
          assert o in more;
          assert fresh(o);
        }
      }
      forall i | 0 <= i < |spaces| && NotCalled(calls[..n + 1], i)
        ensures spaces[i].view == old(spaces[i].view) && spaces[i].F == old(spaces[i].F)
      {
        NotCalledBefore(calls, n, i);
      }
    }
    assert calls[..|calls|] == calls;
  }

  /** None of the calls is to space i. */
  ghost predicate NotCalled(calls: seq<(nat, Op)>, i: int) {
    forall c :: c in calls ==> c.0 != i
  }

  lemma NotCalledBefore(calls: seq<(nat, Op)>, n: nat, i: int)
    requires n < |calls| && NotCalled(calls[..n + 1], i)
    ensures NotCalled(calls[..n], i) && calls[n].0 != i
  {
    assert calls[..n + 1][n] in calls[..n + 1];
    assert forall c :: c in calls[..n] ==> c in calls[..n + 1];
  }

  lemma InBelongings(spaces: seq<UserSpace>, k: nat)
    requires k < |spaces|
    ensures spaces[k] in spaces && spaces[k].Repr <= Belongings(spaces)
  {
  }

  lemma OwnersPlusNone(Fs: seq<map<Place, nat>>, free: set<nat>, limit: nat, used: int)
    requires OwnersOk(Fs, free, limit, used)
    ensures OwnersOk(Fs + [map[]], free, limit, used) && Stock(free, map[]) == free
  {
    var Gs := Fs + [map[]];
    assert FramesOf(Gs) == FramesOf(Fs) by {
      forall f ensures f in FramesOf(Gs) <==> f in FramesOf(Fs) {
        if f in FramesOf(Fs) {
          var i :| 0 <= i < |Fs| && f in Fs[i].Values;
          assert f in Gs[i].Values;
        }
      }
    }
  }

  lemma OwnersMinusNone(Fs: seq<map<Place, nat>>, k: nat, free: set<nat>, limit: nat, used: int)
    requires OwnersOk(Fs, free, limit, used) && k < |Fs| && Fs[k] == map[]
    ensures OwnersOk(Fs[..k] + Fs[k + 1..], free, limit, used)
  {
    hide Owned;
    var Gs := Fs[..k] + Fs[k + 1..];
    assert forall i :: 0 <= i < |Gs| ==> Gs[i] == Fs[if i < k then i else i + 1];
    FramesLess(Fs, k);
  }

  lemma FramesLess(Fs: seq<map<Place, nat>>, k: nat)
    requires k < |Fs| && Fs[k] == map[]
    ensures FramesOf(Fs[..k] + Fs[k + 1..]) == FramesOf(Fs)
  {
    var Gs := Fs[..k] + Fs[k + 1..];
    forall f ensures f in FramesOf(Gs) <==> f in FramesOf(Fs) {
      if f in FramesOf(Fs) {
        var i :| 0 <= i < |Fs| && f in Fs[i].Values;
        assert f in Gs[if i < k then i else i - 1].Values;
      }
    }
  }

  /** A new space joins the family. */
  method Create(spaces: seq<UserSpace>, pm: PM) returns (s: UserSpace)
    requires Family(spaces, pm) && pm.used + pm.reserved + 3 <= pm.total
    modifies pm`used, pm`reserved, pm`next, pm`free, pm.bmp
    ensures fresh(s) && Family(spaces + [s], pm)
    ensures forall i :: 0 <= i < |spaces| ==> spaces[i].view == old(spaces[i].view) && spaces[i].F == old(spaces[i].F)
  {
    hide PM.Valid, UserSpace.Valid, Stock, OwnersOk, Objects, ViewOf, Grid, Accounts, TabsOf;
    ghost var Fs, free, used := Maps(spaces) + [map[]], pm.free, pm.used;
    OwnersPlusNone(Maps(spaces), free, pm.bmpSize, used);
    AllAreCounted(pm);
    s := new UserSpace(pm);
    ghost var all := spaces + [s];
    forall i | 0 <= i < |spaces|
      ensures Local(all[i]) && Separate(all[i], s) && Separate(s, all[i]) && all[i].F == Fs[i]
    {
    }
    FamilyAgain(all, pm, |spaces|, Fs, free, used);
  }

  /** A space is destroyed: all its frames are free again, and the others do not notice. */
  method Dispose(spaces: seq<UserSpace>, pm: PM, k: nat)
    requires Family(spaces, pm) && k < |spaces|
    modifies spaces[k].Repr, pm`used, pm`free, pm.bmp
    ensures Family(spaces[..k] + spaces[k + 1..], pm)
    ensures pm.used == old(pm.used) - old(spaces[k].usedPages) && pm.free == old(pm.free) + old(spaces[k].F.Values)
    ensures forall i :: 0 <= i < |spaces| && i != k ==>
      spaces[i].view == old(spaces[i].view) && spaces[i].F == old(spaces[i].F)
  {
    hide PM.Valid, UserSpace.Valid, Stock, OwnersOk, Objects, ViewOf, Grid, Accounts, TabsOf;
    EachIsValid(spaces, pm, k);
    ghost var Fs, free, used := Maps(spaces), pm.free, pm.used;
    spaces[k].Destroy();
    OwnersFreed(Fs, k, free, pm.bmpSize, used);
    forall i | 0 <= i < |spaces| && i != k ensures Local(spaces[i]) && spaces[i].F == Fs[i] {
      assert Separate(spaces[i], spaces[k]);
    }
    FamilyLess(spaces, pm, k, Fs);
  }

  lemma FamilyLess(spaces: seq<UserSpace>, pm: PM, k: nat, Fs: seq<map<Place, nat>>)
    requires k < |spaces| == |Fs| && pm.Valid()
    requires forall i :: 0 <= i < |spaces| && i != k ==> spaces[i].pm == pm && Local(spaces[i]) && spaces[i].F == Fs[i]
    requires forall i, j :: 0 <= i < |spaces| && 0 <= j < |spaces| && i != j ==> Separate(spaces[i], spaces[j])
    requires OwnersOk(Fs[..k] + Fs[k + 1..], pm.free, pm.bmpSize, pm.used)
    ensures Family(spaces[..k] + spaces[k + 1..], pm)
  {
    hide Local, OwnersOk, Separate, PM.Valid;
    var rest := spaces[..k] + spaces[k + 1..];
    assert forall i :: 0 <= i < |rest| ==> rest[i] == spaces[if i < k then i else i + 1];
    assert Maps(rest) == Fs[..k] + Fs[k + 1..];
  }

  lemma OwnersFreed(Fs: seq<map<Place, nat>>, k: nat, free: set<nat>, limit: nat, used: int)
    requires OwnersOk(Fs, free, limit, used) && k < |Fs|
    ensures OwnersOk(Fs[..k] + Fs[k + 1..], free + Fs[k].Values, limit, used - |Fs[k]|)
  {
    var now := free + Fs[k].Values;
    assert Stock(now, map[]) == Stock(free, Fs[k]);
    StockCount(Fs[k], free, limit);
    assert 0 !in now;
    assert Owned(map[], now, limit);
    hide Stock, Owned, FramesOf;
    OwnersStep(Fs, k, map[], free, now, limit, used, used - |Fs[k]|);
    OwnersMinusNone(Fs[k := map[]], k, now, limit, used - |Fs[k]|);
    assert Fs[k := map[]][..k] + Fs[k := map[]][k + 1..] == Fs[..k] + Fs[k + 1..];
  }
}
