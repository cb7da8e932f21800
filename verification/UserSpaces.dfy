/** The address space of a process (kernel/memory/user_vspace.cpp and the
    multi-table half of kernel/memory/vm.cpp).

    A page of the space is named by its page number, that is, its address
    divided by 0x1000.  The directory entry (pdpt_index, pdt_index) is named by
    the table number pdpt_index * 0x200 + pdt_index, so page p belongs to entry
    p % 0x200 of table p / 0x200. */
module UserSpaces {
  import opened PhysicalMemory
  import opened PageTables

  const SLOTS: nat := 0x200
  const TABLES: nat := SLOTS * SLOTS
  const PAGES: nat := TABLES * ENTRIES

  /** The directory that table n belongs to. */
  function DirOf(n: nat): nat {
    n / SLOTS
  }

  /** The page that entry i of table n stands for. */
  function Page(n: nat, i: nat): nat {
    n * ENTRIES + i
  }

  function TableOf(p: nat): nat {
    p / ENTRIES
  }

  function EntryOf(p: nat): nat {
    p % ENTRIES
  }

  /** How many of `want` pages from p on are in p's own table. */
  function Chunk(p: nat, want: nat): nat {
    if want < ENTRIES - EntryOf(p) then want else ENTRIES - EntryOf(p)
  }

  lemma Locate(p: nat, want: nat)
    requires 0 < want
    ensures Page(TableOf(p), EntryOf(p)) == p
    ensures 0 < Chunk(p, want) <= want && EntryOf(p) + Chunk(p, want) <= ENTRIES
    ensures Chunk(p, want) < want ==> TableOf(p + Chunk(p, want)) == TableOf(p) + 1
    ensures TableOf(p) < TABLES <==> p < PAGES
    ensures TableOf(p) == 0 <==> p < ENTRIES
  {
  }

  /** What a frame of physical memory is used for by one address space. */
  datatype Place = Root | Level4 | Directory(d: nat) | Table(n: nat) | Leaf(p: nat)

  datatype PageState = Free | Reserved | Committed(frame: nat)

  type View = map<nat, seq<Pte>>

  ghost function EntryState(e: Pte): PageState {
    if e.present then Committed(e.frame) else if e.preserve then PageState.Reserved else Free
  }

  ghost predicate Mapped(v: View, p: nat) {
    p / ENTRIES in v && p % ENTRIES < |v[p / ENTRIES]|
  }

  ghost function EntryAt(v: View, p: nat): Pte
    requires Mapped(v, p)
  {
    v[p / ENTRIES][p % ENTRIES]
  }

  /** The state of page p.  A table that does not exist holds free pages only. */
  ghost function StateAt(v: View, p: nat): PageState {
    if Mapped(v, p) then EntryState(EntryAt(v, p)) else Free
  }

  ghost predicate SameStates(v: View, v': View) {
    forall p: nat :: StateAt(v', p) == StateAt(v, p)
  }

  /** What an entry says beside its state and its frame. */
  datatype Marks = Marks(attr: Attributes, user: bool)

  /** The marks of page p.  The entries of a table that does not exist count as zero. */
  ghost function MarksAt(v: View, p: nat): Marks {
    if Mapped(v, p) then Marks(EntryAt(v, p).attr, EntryAt(v, p).user) else Marks(ZERO.attr, ZERO.user)
  }

  /** No table goes away and no page has its marks changed. */
  ghost predicate SameMarks(v: View, v': View) {
    (forall n :: n in v ==> n in v') && forall p: nat :: MarksAt(v', p) == MarksAt(v, p)
  }

  ghost predicate SamePages(v: View, v': View) {
    SameStates(v, v') && SameMarks(v, v')
  }

  /** The pages [first, first + count) are in state s, all others are as before. */
  ghost predicate RangeBecomes(v: View, v': View, first: nat, count: nat, s: PageState) {
    && SameMarks(v, v')
    && forall p: nat :: StateAt(v', p) == if first <= p < first + count then s else StateAt(v, p)
  }

  ghost predicate RangeIs(v: View, first: nat, count: nat, s: PageState) {
    forall p: nat :: first <= p < first + count ==> StateAt(v, p) == s
  }

  /** Every page of the range is reserved or committed. */
  ghost predicate RangeHeld(v: View, first: nat, count: nat) {
    forall p: nat :: first <= p < first + count ==> StateAt(v, p) != Free
  }

  // ---------------------------------------------------------------------
  // Frame ownership
  // ---------------------------------------------------------------------

  /** F says which frame is in which place, for every place in use and no other. */
  ghost predicate Accounts(cr3: nat, pl4te: nat, dirs: map<nat, nat>, tabs: map<nat, nat>, v: View,
      F: map<Place, nat>) {
    && Root in F && F[Root] == cr3
    && Level4 in F && F[Level4] == pl4te
    && (forall d :: Directory(d) in F <==> d in dirs)
    && (forall d :: d in dirs ==> F[Directory(d)] == dirs[d])
    && (forall n :: Table(n) in F <==> n in tabs)
    && (forall n :: n in tabs ==> F[Table(n)] == tabs[n])
    && (forall p :: Leaf(p) in F <==> StateAt(v, p).Committed?)
    && (forall p :: Leaf(p) in F ==> StateAt(v, p) == Committed(F[Leaf(p)]))
  }

  /** No frame is in two places, none is free. */
  ghost predicate Owned(F: map<Place, nat>, free: set<nat>, limit: nat) {
    && (forall a, b :: a in F && b in F && a != b ==> F[a] != F[b])
    && (forall a :: a in F ==> 0 < F[a] < limit && F[a] !in free)
    && 0 !in free
  }

  /** A table's entries are as this code leaves them. */
  ghost predicate Regular(t: seq<Pte>) {
    && |t| == ENTRIES
    && forall i :: 0 <= i < |t| ==> !t[i].bypass && (t[i].present ==> t[i].preserve && t[i].user && t[i].frame != 0)
  }

  /** All the frames a space could have: its own and the free ones. */
  ghost function Stock(free: set<nat>, F: map<Place, nat>): set<nat> {
    free + F.Values
  }

  ghost function With(F: map<Place, nat>, a: Place, f: nat): map<Place, nat> {
    F[a := f]
  }

  ghost function Less(free: set<nat>, f: nat): set<nat> {
    free - {f}
  }

  lemma LessIs(free: set<nat>, f: nat)
    ensures Less(free, f) == free - {f}
  {
  }

  lemma MapMore(F: map<Place, nat>, a: Place, f: nat)
    requires a !in F
    ensures |F[a := f]| == |F| + 1
    ensures F[a := f].Values == F.Values + {f}
  {
    var G := F[a := f];
    assert G.Keys == F.Keys + {a};
    assert |G| == |G.Keys| && |F| == |F.Keys|;
    ValuesMore(F, a, f);
  }

  lemma ValuesMore(F: map<Place, nat>, a: Place, f: nat)
    requires a !in F
    ensures F[a := f].Values == F.Values + {f}
  {
    var G := F[a := f];
    forall x | x in F.Values ensures x in G.Values {
      var k :| k in F && F[k] == x;
      assert k in G && G[k] == x;
    }
    assert a in G && G[a] == f;
  }

  lemma FreshIsRegular(t: seq<Pte>)
    requires |t| == ENTRIES && AllUnused(t, 0, ENTRIES) && forall i :: 0 <= i < ENTRIES ==>
      !t[i].bypass && t[i].frame == 0
    ensures Regular(t)
  {
    forall i | 0 <= i < |t| ensures !t[i].bypass && !t[i].present {
      assert Unused(t[i]);
    }
  }

  lemma FreshIsBlank(t: seq<Pte>)
    requires forall i :: 0 <= i < |t| ==> Bare(t[i]) == ZERO
    ensures Blank(t)
  {
    forall i | 0 <= i < |t| ensures t[i].attr == ZERO.attr && t[i].user == ZERO.user {
      BareKeeps(t[i]);
    }
  }

  lemma SamePagesReflexive(v: View)
    ensures SamePages(v, v)
  {
  }

  lemma OwnedMore(F: map<Place, nat>, free: set<nat>, limit: nat, a: Place, f: nat)
    requires Owned(F, free, limit) && a !in F && f in free && f < limit
    ensures Owned(With(F, a, f), Less(free, f), limit)
  {
    var G := F[a := f];
    forall x, y | x in G && y in G && x != y ensures G[x] != G[y] {
      if x != a && y != a {
        assert F[x] != F[y];
      }
    }
  }

  lemma StockMore(F: map<Place, nat>, free: set<nat>, a: Place, f: nat)
    requires a !in F && f in free
    ensures |With(F, a, f)| == |F| + 1
    ensures Stock(Less(free, f), With(F, a, f)) == Stock(free, F)
  {
    MapMore(F, a, f);
  }

  /** Giving a free frame to a new place. */
  lemma OwnMore(F: map<Place, nat>, free: set<nat>, limit: nat, a: Place, f: nat)
    requires Owned(F, free, limit) && a !in F && f in free && f < limit
    ensures Owned(With(F, a, f), Less(free, f), limit)
    ensures |With(F, a, f)| == |F| + 1
    ensures Stock(Less(free, f), With(F, a, f)) == Stock(free, F)
  {
    hide *;
    OwnedMore(F, free, limit, a, f);
    StockMore(F, free, a, f);
  }

  lemma MapLess(F: map<Place, nat>, a: Place)
    requires a in F && forall x, y :: x in F && y in F && x != y ==> F[x] != F[y]
    ensures |F - {a}| == |F| - 1
    ensures (F - {a}).Values == F.Values - {F[a]}
  {
    var G := F - {a};
    assert G.Keys == F.Keys - {a};
    assert |G| == |G.Keys| && |F| == |F.Keys|;
    forall x | x in F.Values && x != F[a] ensures x in G.Values {
      var k :| k in F && F[k] == x;
      assert k in G && G[k] == x;
    }
    forall x | x in G.Values ensures x in F.Values && x != F[a] {
      var k :| k in G && G[k] == x;
      assert k in F;
    }
  }

  lemma OwnLess(F: map<Place, nat>, free: set<nat>, limit: nat, a: Place)
    requires Owned(F, free, limit) && a in F
    ensures Owned(F - {a}, free + {F[a]}, limit)
    ensures |F - {a}| == |F| - 1
    ensures Stock(free + {F[a]}, F - {a}) == Stock(free, F)
  {
    MapLess(F, a);
    assert F[a] in F.Values;
  }

  /** Tables exist only in directories that exist, and never at the entry set aside. */
  ghost predicate Grid(dirs: set<nat>, tables: set<nat>) {
    && (forall d :: d in dirs ==> d < SLOTS)
    && (forall n :: n in tables ==> 0 < n < TABLES && DirOf(n) in dirs)
  }

  lemma KeysMore<V>(m: map<nat, V>, k: nat, x: V)
    ensures m[k := x].Keys == m.Keys + {k}
  {
  }

  lemma GridTable(dirs: set<nat>, tables: set<nat>, n: nat)
    requires Grid(dirs, tables) && 0 < n < TABLES && DirOf(n) in dirs
    ensures Grid(dirs, tables + {n})
  {
  }

  lemma GridMore(dirs: set<nat>, tables: set<nat>, d: nat)
    requires Grid(dirs, tables) && d < SLOTS
    ensures Grid(dirs + {d}, tables)
  {
  }

  lemma StateIs(v: View, n: nat, t: seq<Pte>, p: nat)
    requires |t| == ENTRIES
    ensures StateAt(v[n := t], p) == if p / ENTRIES == n then EntryState(t[p % ENTRIES]) else StateAt(v, p)
  {
  }

  /** The entries of one table are rewritten, but for their marks. */
  lemma MarksStay(v: View, n: nat, t: seq<Pte>)
    requires n in v ==>
      |v[n]| == |t| && forall i :: 0 <= i < |t| ==> t[i].attr == v[n][i].attr && t[i].user == v[n][i].user
    requires n !in v ==> |t| == ENTRIES && forall i :: 0 <= i < |t| ==> t[i].attr == ZERO.attr && t[i].user == ZERO.user
    ensures SameMarks(v, v[n := t])
  {
    forall p: nat ensures MarksAt(v[n := t], p) == MarksAt(v, p) {
    }
  }

  lemma ReservedRegular(t: seq<Pte>, t': seq<Pte>, off: nat, size: nat)
    requires Regular(t) && PageTables.Reserved(t, t', off, size)
    ensures Regular(t')
    ensures forall i :: 0 <= i < ENTRIES ==>
              EntryState(t'[i]) == if off <= i < off + size then PageState.Reserved else EntryState(t[i])
    ensures forall i :: 0 <= i < ENTRIES ==> t'[i].attr == t[i].attr && t'[i].user == t[i].user
  {
    forall i | 0 <= i < |t|
      ensures t'[i].attr == t[i].attr && t'[i].user == t[i].user
      ensures !t'[i].bypass && (t'[i].present ==> t'[i].preserve && t'[i].user && t'[i].frame != 0)
      ensures EntryState(t'[i]) == if off <= i < off + size then PageState.Reserved else EntryState(t[i])
    {
      BareKeeps(t[i]);
      BareKeeps(t'[i]);
      assert off <= i < off + size ==> Unused(t[i]);
    }
  }

  /** Reserving entries of table n is reserving the pages they stand for. */
  lemma ReservedPages(v: View, n: nat, t: seq<Pte>, off: nat, size: nat)
    requires n in v && Regular(v[n]) && off + size <= ENTRIES
    requires PageTables.Reserved(v[n], t, off, size)
    ensures RangeBecomes(v, v[n := t], Page(n, off), size, Reserved)
    ensures RangeIs(v, Page(n, off), size, Free)
  {
    ReservedRegular(v[n], t, off, size);
    MarksStay(v, n, t);
    EntriesUnused(v, n, off, size);
    forall p: nat
      ensures StateAt(v[n := t], p) == if n * ENTRIES + off <= p < n * ENTRIES + off + size then PageState.Reserved
        else StateAt(v, p)
    {
      StateIs(v, n, t, p);
    }
  }

  lemma SameEntry(v: View, n: nat)
    requires n in v
    ensures v[n := v[n]] == v
  {
  }

  lemma EntriesUnused(v: View, n: nat, off: nat, size: nat)
    requires n in v && |v[n]| == ENTRIES && off + size <= ENTRIES
    ensures AllUnused(v[n], off, size) <==> RangeIs(v, Page(n, off), size, Free)
  {
    forall j | off <= j < off + size
      ensures Unused(v[n][j]) <==> StateAt(v, n * ENTRIES + j) == Free
    {
      assert (n * ENTRIES + j) / ENTRIES == n && (n * ENTRIES + j) % ENTRIES == j;
    }
    if AllUnused(v[n], off, size) {
      forall p: nat | n * ENTRIES + off <= p < n * ENTRIES + off + size ensures StateAt(v, p) == Free {
        assert Unused(v[n][p - n * ENTRIES]);
      }
    }
  }

  lemma ReleasedRegular(t: seq<Pte>, t': seq<Pte>, off: nat, size: nat)
    requires Regular(t) && PageTables.Released(t, t', off, size)
    ensures Regular(t')
    ensures forall i :: 0 <= i < ENTRIES ==>
              EntryState(t'[i]) == if off <= i < off + size then Free else EntryState(t[i])
    ensures forall i :: 0 <= i < ENTRIES ==> t'[i].attr == t[i].attr && t'[i].user == t[i].user
  {
    forall i | 0 <= i < |t|
      ensures t'[i].attr == t[i].attr && t'[i].user == t[i].user
      ensures !t'[i].bypass && (t'[i].present ==> t'[i].preserve && t'[i].user && t'[i].frame != 0)
      ensures EntryState(t'[i]) == if off <= i < off + size then Free else EntryState(t[i])
    {
      BareKeeps(t[i]);
      BareKeeps(Vacated(t[i]));
      BareKeeps(t'[i]);
    }
  }

  lemma ReservedFits(t: seq<Pte>, t': seq<Pte>, off: nat, size: nat)
    requires PageTables.Reserved(t, t', off, size) && |t| == ENTRIES
    ensures off + size <= ENTRIES
  {
  }

  lemma DirBound(n: nat)
    requires n < TABLES
    ensures DirOf(n) < SLOTS
  {
  }

  lemma BecomesNone(v: View, first: nat, s: PageState)
    ensures RangeBecomes(v, v, first, 0, s)
  {
  }

  lemma BecomesMore(v: View, w: View, x: View, first: nat, count: nat, more: nat, s: PageState)
    requires RangeBecomes(v, w, first, count, s) && RangeBecomes(w, x, first + count, more, s)
    ensures RangeBecomes(v, x, first, count + more, s)
  {
    forall p: nat ensures StateAt(x, p) == if first <= p < first + count + more then s else StateAt(v, p) {
      assert StateAt(w, p) == if first <= p < first + count then s else StateAt(v, p);
    }
  }

  lemma StillHeld(v: View, w: View, first: nat, count: nat, done: nat, size: nat)
    requires RangeHeld(v, first, count) && done + size <= count && RangeBecomes(v, w, first, done, Free)
    ensures RangeHeld(w, first + done, size)
  {
    forall p: nat | first + done <= p < first + done + size ensures StateAt(w, p) != Free {
      assert StateAt(w, p) == StateAt(v, p);
    }
  }

  lemma HeldTable(v: View, n: nat, off: nat, size: nat)
    requires RangeHeld(v, Page(n, off), size) && 0 < size && off < ENTRIES
    ensures n in v
  {
    assert StateAt(v, Page(n, off)) != Free;
  }

  lemma LeavesNone(F: map<Place, nat>, first: nat)
    ensures Without(F, LeavesIn(F, first, 0)) == F
  {
  }

  lemma LeavesMore(F: map<Place, nat>, first: nat, count: nat, more: nat)
    ensures var G := Without(F, LeavesIn(F, first, count));
            Without(G, LeavesIn(G, first + count, more)) == Without(F, LeavesIn(F, first, count + more))
  {
  }

  /** reserve_fixed has to refuse: the range is not wholly free, touches the
      table set aside, or leaves the space. */
  ghost predicate Refusable(v: View, first: nat, count: nat) {
    first + count > PAGES || first < ENTRIES || !RangeIs(v, first, count, Free)
  }

  lemma RefusesOutside(v: View, first: nat, count: nat)
    ensures first + count > PAGES ==> Refusable(v, first, count)
  {
  }

  lemma IsNotRefusable(v: View, first: nat, count: nat)
    requires first + count <= PAGES && first >= ENTRIES && RangeIs(v, first, count, Free)
    ensures !Refusable(v, first, count)
  {
  }

  lemma FreeNone(v: View, first: nat)
    ensures RangeIs(v, first, 0, Free)
  {
  }

  lemma FreeMore(v: View, w: View, first: nat, count: nat, more: nat)
    requires RangeIs(v, first, count, Free) && RangeBecomes(v, w, first, count, Reserved)
    requires RangeIs(w, first + count, more, Free)
    ensures RangeIs(v, first, count + more, Free)
  {
    forall p: nat | first <= p < first + count + more ensures StateAt(v, p) == Free {
      if p >= first + count {
        assert StateAt(w, p) == Free;
      }
    }
  }

  /** What stopped the loop of reserve_fixed is a reason to refuse. */
  lemma Stopped(v: View, w: View, first: nat, count: nat, done: nat, n: nat, off: nat, size: nat)
    requires RangeBecomes(v, w, first, done, Reserved) && done + size <= count && 0 < size
    requires first + done == Page(n, off) && n == TableOf(first + done)
    requires n >= TABLES || n == 0 || !RangeIs(w, Page(n, off), size, Free)
    ensures Refusable(v, first, count)
  {
    if 0 < n < TABLES {
      var p: nat :| Page(n, off) <= p < Page(n, off) + size && StateAt(w, p) != Free;
      assert StateAt(v, p) == StateAt(w, p);
    }
  }

  lemma StoppedOr(v: View, w: View, first: nat, count: nat, done: nat, n: nat, off: nat, size: nat)
    requires RangeBecomes(v, w, first, done, Reserved) && done + size <= count && 0 < size
    requires first + done == Page(n, off) && n == TableOf(first + done)
    ensures n >= TABLES || n == 0 || !RangeIs(w, Page(n, off), size, Free) ==> Refusable(v, first, count)
  {
    if n >= TABLES || n == 0 || !RangeIs(w, Page(n, off), size, Free) {
      Stopped(v, w, first, count, done, n, off, size);
    }
  }

  /** Some page of the range belongs to a table that does not exist. */
  ghost predicate Lacking(v: View, first: nat, count: nat) {
    exists p: nat :: first <= p < first + count && TableOf(p) !in v
  }

  lemma LackingIs(v: View, w: View, first: nat, count: nat, done: nat)
    requires RangeBecomes(v, w, first, done, Reserved) && done < count
    ensures TableOf(first + done) !in w ==> Lacking(v, first, count)
  {
  }

  lemma InSpace(p: nat, size: nat)
    requires 0 < TableOf(p) < TABLES && EntryOf(p) + size <= ENTRIES
    ensures ENTRIES <= p && p + size <= PAGES
  {
  }

  lemma BecomesThenSame(v: View, w: View, x: View, first: nat, count: nat, s: PageState)
    requires RangeBecomes(v, w, first, count, s) && SamePages(w, x)
    ensures RangeBecomes(v, x, first, count, s)
  {
    forall p: nat ensures StateAt(x, p) == if first <= p < first + count then s else StateAt(v, p) {
      assert StateAt(x, p) == StateAt(w, p);
    }
  }

  lemma BecomesNothing(v: View, w: View, first: nat, s: PageState)
    requires RangeBecomes(v, w, first, 0, s)
    ensures SamePages(v, w)
  {
  }

  lemma ReservedIsHeld(v: View, w: View, first: nat, count: nat)
    requires RangeBecomes(v, w, first, count, Reserved)
    ensures RangeHeld(w, first, count)
  {
    forall p: nat | first <= p < first + count ensures StateAt(w, p) != Free {
      assert StateAt(w, p) == PageState.Reserved;
    }
  }

  /** Reserving a free range and freeing it again changes nothing. */
  lemma RolledBack(v: View, w: View, x: View, first: nat, count: nat)
    requires RangeIs(v, first, count, Free)
    requires RangeBecomes(v, w, first, count, Reserved) && RangeBecomes(w, x, first, count, Free)
    ensures SamePages(v, x)
  {
    forall p: nat ensures StateAt(x, p) == StateAt(v, p) {
      assert StateAt(w, p) == if first <= p < first + count then PageState.Reserved else StateAt(v, p);
    }
  }

  /** No leaf is in a range of reserved pages. */
  lemma ReservedHasNoLeaf(cr3: nat, pl4te: nat, dirs: map<nat, nat>, tabs: map<nat, nat>, v: View, w: View,
      F: map<Place, nat>,
                          first: nat, count: nat)
    requires Accounts(cr3, pl4te, dirs, tabs, w, F) && RangeBecomes(v, w, first, count, Reserved)
    ensures Without(F, LeavesIn(F, first, count)) == F
  {
    forall p: nat | first <= p < first + count ensures Leaf(p) !in F {
      assert StateAt(w, p) == PageState.Reserved;
    }
    assert LeavesIn(F, first, count) == {};
  }

  /** Table number i of directory d. */
  function TableAt(d: nat, i: nat): nat {
    d * SLOTS + i
  }

  lemma BaseInDirectory(d: nat, b: nat, aligned: nat)
    requires b + aligned <= SLOTS && 0 < aligned
    ensures DirOf(TableAt(d, b)) == d
  {
  }

  lemma TableAtBounds(d: nat, i: nat)
    requires d < SLOTS && i < SLOTS
    ensures TableAt(d, i) < TABLES && DirOf(TableAt(d, i)) == d
    ensures TableAt(d, i + 1) == TableAt(d, i) + 1
  {
  }

  lemma NextDirectory(d: nat)
    ensures TableAt(d, SLOTS) == TableAt(d + 1, 0)
    ensures TableAt(SLOTS, 0) == TABLES && TableAt(0, 0) == 0
  {
  }

  // The searches compute the address of a table in 32 bits, so what they tell
  // their caller is the true address modulo 4 GB.

  const WRAP: nat := 0x100000   // pages in 4 GB
  const LOW: nat := 0x800       // tables in 4 GB

  /** What the caller is told of page p. */
  function Told(p: nat): nat {
    p % WRAP
  }

  /** The address of table n in 32 bits. */
  function Base32(n: nat): nat {
    Page(n, 0) % WRAP
  }

  lemma ToldIs(n: nat, off: nat)
    requires off < ENTRIES
    ensures Base32(n) + off == Told(Page(n, off))
    ensures Told(Page(n, off)) == Page(n, off) <==> n < LOW
    ensures Page(n, off) < WRAP <==> n < LOW
    ensures n > 0 && Told(Page(n, off)) == 0 ==> n >= LOW && off == 0
  {
  }

  /** Every table below n exists and has no room for the request. */
  ghost predicate SearchedBelow(v: View, n: nat, count: nat) {
    forall m :: 0 < m < n ==> m in v && Cramped(v[m], count)
  }

  /** The same, except for the tables that start one of the lost ranges. */
  ghost predicate SearchedBut(v: View, n: nat, count: nat, lost: set<nat>) {
    forall m :: 0 < m < n ==> m in v && (Cramped(v[m], count) || Page(m, 0) in lost)
  }

  /** The pages at i are the end of a smallest run that is large enough. */
  ghost predicate EndOfTightest(t: seq<Pte>, i: nat, count: nat) {
    exists r :: TightestFit(t, r, count) && i + count == r.self + r.size
  }

  /** Where pages are found: in one table, at the end of a run of it that fits best;
      a table that was missing gives its last pages. */
  ghost predicate AnyBase(v: View, first: nat, count: nat) {
    if TableOf(first) in v then
      !Cramped(v[TableOf(first)], count) && EndOfTightest(v[TableOf(first)], EntryOf(first), count)
    else EntryOf(first) + count == ENTRIES
  }

  /** No table before n could serve the request, except for those that start a lost
      range: it has no room, or it is missing and, with low, could not be made. */
  ghost predicate Passed(v: View, n: nat, count: nat, lost: set<nat>, low: bool) {
    forall m :: 0 < m < n && Page(m, 0) !in lost ==> if m in v then Cramped(v[m], count) else low
  }

  lemma AnyBaseIs(v: View, w: View, n: nat, i: nat, count: nat)
    requires n in w && i + count <= ENTRIES && count > 0 && EndOfTightest(w[n], i, count) && !Cramped(w[n], count)
    requires if n in v then w == v else |w[n]| == ENTRIES && AllUnused(w[n], 0, ENTRIES)
    ensures AnyBase(v, Page(n, i), count)
  {
    EntryInTable(n, i, count);
    if n !in v {
      FreshEnd(w[n], i, count);
    }
  }

  lemma FreshEnd(t: seq<Pte>, i: nat, count: nat)
    requires |t| == ENTRIES && AllUnused(t, 0, ENTRIES) && EndOfTightest(t, i, count)
    ensures i + count == ENTRIES
  {
    var r :| TightestFit(t, r, count) && i + count == r.self + r.size;
  }

  /** From table n on nothing has changed. */
  ghost predicate UntouchedFrom(v: View, w: View, n: nat) {
    forall m: nat :: m >= n ==> (m in w <==> m in v) && (m in w ==> w[m] == v[m])
  }

  ghost predicate OnlyTable(v: View, w: View, n: nat) {
    forall m: nat :: m != n ==> (m in w <==> m in v) && (m in w ==> w[m] == v[m])
  }

  ghost predicate InRanges(s: set<nat>, count: nat, p: nat) {
    exists b :: b in s && b <= p < b + count
  }

  /** The ranges of count pages that start at the members of s are reserved, all
      other pages are as before. */
  ghost predicate RangesBecome(v: View, w: View, s: set<nat>, count: nat) {
    && SameMarks(v, w)
    && forall p: nat :: StateAt(w, p) == if InRanges(s, count, p) then Reserved else StateAt(v, p)
  }

  ghost predicate AllWereFree(v: View, s: set<nat>, count: nat) {
    forall b :: b in s ==> !Refusable(v, b, count)
  }

  ghost predicate AllUntold(s: set<nat>) {
    forall b :: b in s ==> b > 0 && Told(b) == 0
  }

  ghost function Spot(place: Option<nat>): set<nat> {
    if place.Some? then {place.value} else {}
  }

  lemma RangesNone(v: View, count: nat)
    ensures RangesBecome(v, v, {}, count) && AllWereFree(v, {}, count) && AllUntold({})
    ensures UntouchedFrom(v, v, 0) && SearchedBut(v, 0, count, {})
  {
  }

  lemma RangesMore(v: View, w: View, x: View, s: set<nat>, count: nat, b: nat)
    requires RangesBecome(v, w, s, count) && AllWereFree(v, s, count)
    requires RangeBecomes(w, x, b, count, Reserved) && !Refusable(w, b, count)
    ensures RangesBecome(v, x, s + {b}, count) && AllWereFree(v, s + {b}, count)
  {
    forall p: nat ensures StateAt(x, p) == if InRanges(s + {b}, count, p) then Reserved else StateAt(v, p) {
      assert InRanges(s + {b}, count, p) <==> InRanges(s, count, p) || b <= p < b + count by {
        assert InRanges(s, count, p) || b <= p < b + count ==> InRanges(s + {b}, count, p) by {
          assert b in s + {b} && forall c :: c in s ==> c in s + {b};
        }
      }
    }
    forall p: nat | b <= p < b + count ensures StateAt(v, p) == Free {
      assert StateAt(w, p) == Free;
    }
  }

  lemma RangesSame(v: View, w: View, x: View, s: set<nat>, count: nat)
    requires RangesBecome(v, w, s, count) && SamePages(w, x)
    ensures RangesBecome(v, x, s, count)
  {
  }

  lemma RangesOne(v: View, w: View, b: nat, count: nat)
    requires RangesBecome(v, w, {b}, count)
    ensures RangeBecomes(v, w, b, count, Reserved)
  {
    forall p: nat ensures InRanges({b}, count, p) <==> b <= p < b + count {
      if b <= p < b + count {
        assert b in {b};
      }
    }
  }

  lemma OnlyOne(v: View, n: nat, t: seq<Pte>)
    ensures OnlyTable(v, v[n := t], n) && OnlyTable(v, v, n)
  {
  }

  lemma OnlySelf(v: View, n: nat)
    ensures OnlyTable(v, v, n)
  {
  }

  lemma EntryInTable(n: nat, off: nat, size: nat)
    requires off + size <= ENTRIES && size > 0
    ensures TableOf(Page(n, off)) == n && off < ENTRIES
  {
  }

  lemma OnlyTwice(v: View, w: View, x: View, n: nat)
    requires OnlyTable(v, w, n) && OnlyTable(w, x, n)
    ensures OnlyTable(v, x, n)
  {
  }

  /** A fresh table has room for any request. */
  lemma FreshHasRoom(t: seq<Pte>, count: nat)
    requires |t| == ENTRIES && AllUnused(t, 0, ENTRIES) && count <= ENTRIES
    ensures !Cramped(t, count)
  {
    FieldLaws(ENTRIES);
    assert MaximalRun(t, Run(0, ENTRIES));
  }

  /** How the search stands before it looks at table n. */
  ghost predicate Searching(v: View, w: View, n: nat, count: nat, lost: set<nat>, low: bool) {
    && RangesBecome(v, w, lost, count) && AllWereFree(v, lost, count) && AllUntold(lost)
    && (lost != {} ==> n > LOW) && UntouchedFrom(v, w, n) && Passed(v, n, count, lost, low)
    && (low || (SearchedBut(w, n, count, lost) && SearchedBelow(v, if n < LOW then n else LOW, count)))
  }

  lemma StartSearching(v: View, count: nat, low: bool)
    ensures Searching(v, v, 0, count, {}, low)
  {
    RangesNone(v, count);
  }

  lemma StillSearching(v: View, w: View, n: nat, count: nat, lost: set<nat>, low: bool)
    requires exists was: bool :: Searching(v, w, n, count, lost, was) && (was ==> low)
    ensures Searching(v, w, n, count, lost, low)
  {
  }

  lemma NoSpot(lost: set<nat>)
    ensures lost + Spot(None) == lost
  {
  }

  lemma SearchEnds(v: View, w: View, n: nat, count: nat, lost: set<nat>, low: bool)
    requires Searching(v, w, n, count, lost, low)
    ensures RangesBecome(v, w, lost + Spot(None), count) && AllWereFree(v, lost + Spot(None), count) && AllUntold(lost)
    ensures (low || SearchedBut(w, n, count, lost)) && Passed(v, n, count, lost, low)
  {
    NoSpot(lost);
  }

  /** The search ended at page p, after losing the ranges at lost. */
  ghost predicate Found(v: View, x: View, lost: set<nat>, p: nat, count: nat, low: bool) {
    && RangesBecome(v, x, lost + Spot(Some(p)), count) && AllWereFree(v, lost + Spot(Some(p)), count) && AllUntold(lost)
    && (SearchedBelow(v, LOW, count) ==> Told(p) != p)
    && (!low && !SearchedBelow(v, LOW, count) ==> Told(p) == p && lost == {})
    && (p < WRAP ==> Told(p) == p && lost == {})
    // in the first table that could serve
    && AnyBase(v, p, count) && Passed(v, TableOf(p), count, lost, low && TableOf(p) in v)
  }

  lemma FoundFacts(v: View, x: View, lost: set<nat>, p: nat, count: nat, low: bool)
    requires Found(v, x, lost, p, count, low)
    ensures RangesBecome(v, x, lost + Spot(Some(p)), count) && AllWereFree(v, lost + Spot(Some(p)), count)
    ensures AllUntold(lost)
    ensures SearchedBelow(v, LOW, count) ==> Told(p) != p
    ensures !low && !SearchedBelow(v, LOW, count) ==> Told(p) == p && lost == {}
    ensures p < WRAP ==> Told(p) == p && lost == {}
    ensures AnyBase(v, p, count) && Passed(v, TableOf(p), count, lost, low && TableOf(p) in v)
  {
  }

  lemma SearchFound(v: View, w: View, x: View, n: nat, count: nat, lost: set<nat>, was: bool, low: bool, p: nat)
    requires Searching(v, w, n, count, lost, was) && (was ==> low) && 0 < n && TableOf(p) == n
    requires !Refusable(w, p, count) && RangeBecomes(w, x, p, count, Reserved) && (n in w ==> !Cramped(w[n], count))
    requires AnyBase(w, p, count) && (n !in w ==> !was)
    ensures Found(v, x, lost, p, count, low)
  {
    hide RangesBecome, AllWereFree, AllUntold, UntouchedFrom, SearchedBut, SearchedBelow, Refusable, RangeBecomes,
        Cramped, Passed, EndOfTightest;
    UntouchedAt(v, w, n);
    PassedLow(v, n, count, lost, was, low && n in v);
    RangesMore(v, w, x, lost, count, p);
    ToldIs(n, EntryOf(p));
    PageParts(p);
    FoundWhere(v, w, n, count, if n < LOW then n else LOW);
  }

  lemma PageParts(p: nat)
    ensures Page(TableOf(p), EntryOf(p)) == p && EntryOf(p) < ENTRIES
  {
  }

  lemma SearchMissed(v: View, w: View, x: View, n: nat, count: nat, lost: set<nat>, was: bool, low: bool)
    requires Searching(v, w, n, count, lost, was) && (was ==> low) && SamePages(w, x) && OnlyTable(w, x, n)
    requires !low && n > 0 ==> n in w && n in x && Cramped(x[n], count) && Cramped(w[n], count)
    requires n > 0 ==> if n in w then Cramped(w[n], count) else low
    ensures Searching(v, x, n + 1, count, lost, low)
  {
    hide RangesBecome, AllWereFree, AllUntold, SearchedBut, SearchedBelow, Cramped, SamePages, UntouchedFrom,
        OnlyTable, Passed;
    UntouchedAt(v, w, n);
    PassedLow(v, n, count, lost, was, low);
    PassedMore(v, n, count, lost, low);
    RangesSame(v, w, x, lost, count);
    UntouchedNext(v, w, x, n);
    if !low {
      SearchedOn(v, w, x, n, count, lost, if n < LOW then n else LOW);
    }
  }

  lemma SearchLost(v: View, w: View, x: View, n: nat, count: nat, lost: set<nat>, was: bool, low: bool, p: nat)
    requires Searching(v, w, n, count, lost, was) && (was ==> low) && 0 < n && TableOf(p) == n && Told(p) == 0
    requires !Refusable(w, p, count) && RangeBecomes(w, x, p, count, Reserved) && OnlyTable(w, x, n) && n in x
    ensures Searching(v, x, n + 1, count, lost + {p}, low)
  {
    hide RangesBecome, AllWereFree, AllUntold, SearchedBut, SearchedBelow, UntouchedFrom, OnlyTable, Refusable,
        RangeBecomes, Passed;
    RangesMore(v, w, x, lost, count, p);
    PageParts(p);
    ToldIs(n, EntryOf(p));
    LostMore(lost, p);
    PassedLow(v, n, count, lost, was, low);
    PassedLost(v, n, count, lost, low, p);
    UntouchedNext(v, w, x, n);
    if !low {
      SearchedLost(v, w, x, n, count, lost, if n < LOW then n else LOW);
    }
  }

  lemma UntouchedAt(v: View, w: View, n: nat)
    requires UntouchedFrom(v, w, n)
    ensures (n in w <==> n in v) && (n in w ==> w[n] == v[n])
  {
  }

  lemma PassedLow(v: View, n: nat, count: nat, lost: set<nat>, was: bool, low: bool)
    requires Passed(v, n, count, lost, was) && (was ==> low)
    ensures Passed(v, n, count, lost, low)
  {
  }

  lemma PassedMore(v: View, n: nat, count: nat, lost: set<nat>, low: bool)
    requires Passed(v, n, count, lost, low) && (n > 0 ==> if n in v then Cramped(v[n], count) else low)
    ensures Passed(v, n + 1, count, lost, low)
  {
  }

  lemma PassedLost(v: View, n: nat, count: nat, lost: set<nat>, low: bool, p: nat)
    requires Passed(v, n, count, lost, low) && p == Page(n, 0)
    ensures Passed(v, n + 1, count, lost + {p}, low)
  {
  }

  lemma SpotOnly(v: View, w: View, b: nat, count: nat)
    requires RangeBecomes(v, w, b, count, Reserved) && !Refusable(v, b, count)
    ensures RangesBecome(v, w, {} + Spot(Some(b)), count) && AllWereFree(v, {} + Spot(Some(b)), count)
  {
    RangesNone(v, count);
    RangesMore(v, v, w, {}, count, b);
  }

  lemma AloneSpot(lost: set<nat>, place: Option<nat>)
    requires lost == {} && place.Some?
    ensures lost + Spot(place) == {place.value}
  {
  }

  lemma TableIs512()
    ensures ENTRIES == 0x200
  {
  }

  lemma ToldWhere(p: nat)
    ensures Told(p) == p <==> p < WRAP
    ensures TableOf(p) < LOW <==> p < WRAP
  {
  }

  lemma UntouchedNext(v: View, w: View, x: View, n: nat)
    requires UntouchedFrom(v, w, n) && OnlyTable(w, x, n)
    ensures UntouchedFrom(v, x, n + 1) && (n in w <==> n in v) && (n in w ==> w[n] == v[n])
  {
  }

  /** Table n was found to have no room. */
  lemma SearchedOn(v: View, w: View, x: View, n: nat, count: nat, lost: set<nat>, low: nat)
    requires SearchedBut(w, n, count, lost) && SearchedBelow(v, low, count) && low == (if n < LOW then n else LOW)
    requires OnlyTable(w, x, n) && UntouchedFrom(v, w, n)
    requires n == 0 || (n in w && n in x && Cramped(x[n], count) && Cramped(w[n], count))
    ensures SearchedBut(x, n + 1, count, lost)
    ensures SearchedBelow(v, if n + 1 < LOW then n + 1 else LOW, count)
  {
  }

  /** The pages found in table n are lost. */
  lemma SearchedLost(v: View, w: View, x: View, n: nat, count: nat, lost: set<nat>, low: nat)
    requires SearchedBut(w, n, count, lost) && SearchedBelow(v, low, count) && low == (if n < LOW then n else LOW)
    requires OnlyTable(w, x, n) && n in x && n >= LOW
    ensures SearchedBut(x, n + 1, count, lost + {Page(n, 0)})
    ensures SearchedBelow(v, LOW, count)
  {
  }

  lemma LostMore(lost: set<nat>, b: nat)
    requires AllUntold(lost) && b > 0 && Told(b) == 0
    ensures AllUntold(lost + {b}) && lost + {b} + {} == lost + {b}
  {
  }

  /** Where the pages were found tells whether there was room below 4 GB. */
  lemma FoundWhere(v: View, w: View, n: nat, count: nat, low: nat)
    requires UntouchedFrom(v, w, n) && 0 < n && (n in w ==> !Cramped(w[n], count))
    ensures SearchedBelow(v, LOW, count) ==> n >= LOW
    ensures SearchedBelow(v, low, count) && low == (if n < LOW then n else LOW) && !SearchedBelow(v, LOW, count) ==>
      n < LOW
  {
  }

  lemma TableInSpace(v: View, n: nat, i: nat, count: nat)
    requires 0 < n < TABLES && i + count <= ENTRIES && RangeIs(v, Page(n, i), count, Free)
    ensures !Refusable(v, Page(n, i), count)
  {
  }

  /** Table n may be handed out whole: it is missing, or wholly unused. */
  ghost predicate Vacant(v: View, n: nat) {
    0 < n && (n in v ==> |v[n]| == ENTRIES && AllUnused(v[n], 0, ENTRIES))
  }

  ghost predicate VacantRange(v: View, first: nat, count: nat) {
    forall n :: first <= n < first + count ==> Vacant(v, n)
  }

  /** How many of the tables [first, first + count) are missing. */
  ghost function Absent(present: set<nat>, first: nat, count: nat): nat
    decreases count
  {
    if count == 0 then 0 else (if first in present then 0 else 1) + Absent(present, first + 1, count - 1)
  }

  lemma {:induction false} AbsentMore(present: set<nat>, first: nat, count: nat)
    ensures Absent(present, first, count + 1) ==
            Absent(present, first, count) + (if first + count in present then 0 else 1)
    decreases count
  {
    if count > 0 {
      AbsentMore(present, first + 1, count - 1);
    }
  }

  lemma {:induction false} AbsentOther(present: set<nat>, n: nat, first: nat, count: nat)
    requires n < first
    ensures Absent(present + {n}, first, count) == Absent(present, first, count)
    decreases count
  {
    if count > 0 {
      AbsentOther(present, n, first + 1, count - 1);
    }
  }

  lemma AbsentNone(present: set<nat>, first: nat)
    ensures Absent(present, first, 0) == 0
  {
  }

  lemma ShiftTable(d: nat, base: nat, pages: nat)
    ensures TableAt(d, base) + pages == TableAt(d, base + pages)
  {
  }

  /** No stretch of `aligned` vacant tables of directory d ends at or before i. */
  ghost predicate NoRoom(v: View, d: nat, aligned: nat, i: nat) {
    forall b: nat :: b + aligned <= i ==> !VacantRange(v, TableAt(d, b), aligned)
  }

  lemma NoRoomStart(v: View, d: nat, aligned: nat)
    requires 0 < aligned
    ensures NoRoom(v, d, aligned, 0)
  {
  }

  lemma NoRoomEarly(v: View, d: nat, aligned: nat, i: nat)
    requires NoRoom(v, d, aligned, i) && i + 1 < aligned
    ensures NoRoom(v, d, aligned, i + 1)
  {
  }

  lemma NoRoomMore(v: View, d: nat, aligned: nat, i: nat, taken: nat)
    requires NoRoom(v, d, aligned, i) && 0 < aligned
    requires i < taken + aligned && taken <= i && !Vacant(v, TableAt(d, taken))
    ensures NoRoom(v, d, aligned, i + 1)
  {
    forall b: nat | b + aligned == i + 1 ensures !VacantRange(v, TableAt(d, b), aligned) {
      assert TableAt(d, b) <= TableAt(d, taken) < TableAt(d, b) + aligned;
    }
  }

  lemma VacantNone(v: View, first: nat)
    ensures VacantRange(v, first, 0)
  {
  }

  lemma VacantMore(v: View, first: nat, count: nat)
    requires VacantRange(v, first, count) && Vacant(v, first + count)
    ensures VacantRange(v, first, count + 1)
  {
  }

  lemma VacantPages(v: View, n: nat, size: nat)
    requires Vacant(v, n) && size <= ENTRIES
    ensures RangeIs(v, Page(n, 0), size, Free)
  {
    forall p: nat | Page(n, 0) <= p < Page(n, 0) + size ensures StateAt(v, p) == Free {
      assert p / ENTRIES == n;
      if n in v {
        assert Unused(v[n][p % ENTRIES]);
      }
    }
  }

  lemma VacantRangePages(v: View, first: nat, count: nat, size: nat)
    requires VacantRange(v, first, count) && size <= count * ENTRIES
    ensures RangeIs(v, Page(first, 0), size, Free)
  {
    forall p: nat | Page(first, 0) <= p < Page(first, 0) + size ensures StateAt(v, p) == Free {
      assert Vacant(v, p / ENTRIES);
      VacantPages(v, p / ENTRIES, ENTRIES);
      assert Page(p / ENTRIES, 0) <= p < Page(p / ENTRIES, 0) + ENTRIES;
    }
  }

  /** How many pages of a big request the first i tables take. */
  function Done(i: nat, pageCount: nat): nat {
    if i * ENTRIES < pageCount then i * ENTRIES else pageCount
  }

  /** The number of tables that pageCount pages need. */
  ghost predicate Needs(pageCount: nat, num: nat) {
    0 < num && (num - 1) * ENTRIES < pageCount <= num * ENTRIES
  }

  lemma DoneStep(first: nat, i: nat, num: nat, pageCount: nat)
    requires Needs(pageCount, num) && i < num
    ensures 0 < ENTRIES && Done(i, pageCount) < pageCount && Page(first, 0) + Done(i, pageCount) == Page(first + i, 0)
    ensures Done(i + 1, pageCount) ==
      Done(i,
          pageCount) + (if ENTRIES < pageCount - Done(i, pageCount) then ENTRIES else pageCount - Done(i, pageCount))
  {
  }

  lemma DoneEnds(num: nat, pageCount: nat)
    requires Needs(pageCount, num)
    ensures Done(0, pageCount) == 0 && Done(num, pageCount) == pageCount
  {
  }

  lemma FirstVacant(v: View, n: nat, count: nat)
    requires VacantRange(v, n, count) && 0 < count
    ensures Vacant(v, n)
  {
  }

  lemma AddPresent(present: set<nat>, n: nat)
    requires n in present
    ensures present + {n} == present
  {
  }

  lemma ViewTwice(v: View, w: View, x: View, n: nat)
    requires w == v || (n in w && w == v[n := w[n]])
    requires n in x && x == w[n := x[n]]
    ensures x == v[n := x[n]]
  {
  }

  function AlignUp(pageCount: nat): nat {
    (pageCount + ENTRIES - 1) / ENTRIES
  }

  lemma AlignedNeeds(pageCount: nat)
    requires 0 < pageCount
    ensures Needs(pageCount, AlignUp(pageCount)) && 0 < AlignUp(pageCount)
  {
  }

  /** A big reservation starts at a table; its tables were wholly free and lie in
      one directory, where they are the first such stretch. */
  ghost predicate BigBase(v: View, first: nat, pageCount: nat) {
    && EntryOf(first) == 0 && 0 < pageCount && RangeIs(v, first, AlignUp(pageCount) * ENTRIES, Free)
    && DirOf(TableOf(first)) == DirOf(TableOf(first + pageCount - 1))
    && NoRoom(v, DirOf(TableOf(first)), AlignUp(pageCount), TableOf(first) % SLOTS + AlignUp(pageCount) - 1)
  }

  /** Directory d does not serve a big request: it has no stretch that is long
      enough, or the first one lacks as many tables as there are frames left. */
  ghost predicate BigRefused(v: View, d: nat, aligned: nat, room: int) {
    NoRoom(v, d, aligned, SLOTS)
      || exists b: nat :: Stretch(v, d, b, aligned) && Absent(v.Keys, TableAt(d, b), aligned) >= room
  }

  /** The first stretch of vacant tables of directory d. */
  ghost predicate Stretch(v: View, d: nat, b: nat, aligned: nat) {
    && 0 < aligned && b + aligned <= SLOTS
    && VacantRange(v, TableAt(d, b), aligned) && NoRoom(v, d, aligned, b + aligned - 1)
  }

  /** The directories before d do not serve. The missing ones have each taken a frame. */
  ghost predicate BigPassed(v: View, present: set<nat>, d: nat, aligned: nat, room: int) {
    forall c: nat :: c < d ==> BigSkipped(v, present, c, aligned, room)
  }

  ghost predicate BigSkipped(v: View, present: set<nat>, d: nat, aligned: nat, room: int) {
    BigRefused(v, d, aligned, room - Absent(present, 0, d + 1))
  }

  /** No directory serves, up to the first one that is missing and cannot be made. */
  ghost predicate BigEnded(v: View, present: set<nat>, aligned: nat, room: int) {
    exists d: nat :: d <= SLOTS && BigPassed(v, present, d, aligned, room)
      && (d < SLOTS ==> d !in present && room <= Absent(present, 0, d))
  }

  lemma BigStarts(v: View, present: set<nat>, aligned: nat, room: int)
    ensures BigPassed(v, present, 0, aligned, room) && Absent(present, 0, 0) == 0 && SameFrom(present, present, 0)
  {
  }

  lemma BigNext(v: View, present: set<nat>, d: nat, aligned: nat, room: int, b: nat)
    requires BigPassed(v, present, d, aligned, room)
    requires NoRoom(v, d, aligned, SLOTS)
      || (Stretch(v, d, b, aligned) && Absent(v.Keys, TableAt(d, b), aligned) >= room - Absent(present, 0, d + 1))
    ensures BigPassed(v, present, d + 1, aligned, room)
  {
  }

  lemma BigEnds(v: View, present: set<nat>, d: nat, aligned: nat, room: int)
    requires d <= SLOTS && BigPassed(v, present, d, aligned, room)
    requires d < SLOTS ==> d !in present && room <= Absent(present, 0, d)
    ensures BigEnded(v, present, aligned, room)
  {
  }

  lemma StretchIs(v: View, d: nat, b: nat, aligned: nat)
    requires 0 < aligned && b + aligned <= SLOTS && VacantRange(v, TableAt(d, b), aligned)
    requires NoRoom(v, d, aligned, b + aligned - 1)
    ensures Stretch(v, d, b, aligned)
  {
  }

  /** From d on the same directories exist. */
  ghost predicate SameFrom(before: set<nat>, after: set<nat>, d: nat) {
    forall c: nat :: c >= d ==> (c in after <==> c in before)
  }

  lemma SameFromNext(before: set<nat>, mid: set<nat>, after: set<nat>, d: nat)
    requires SameFrom(before, mid, d) && (after == mid || after == mid + {d})
    ensures SameFrom(before, after, d + 1) && (d in mid <==> d in before)
  {
  }

  lemma BigFits(v: View, d: nat, base: nat, aligned: nat, pageCount: nat)
    requires d < SLOTS && base + aligned <= SLOTS && VacantRange(v, TableAt(d, base), aligned)
    requires aligned == AlignUp(pageCount) && 0 < pageCount && NoRoom(v, d, aligned, base + aligned - 1)
    ensures var first := TableAt(d, base);
            && 0 < first && first + aligned <= TABLES
            && (forall n :: first <= n < first + aligned ==> DirOf(n) == d)
            && !Refusable(v, Page(first, 0), pageCount) && BigBase(v, Page(first, 0), pageCount)
  {
    var first := TableAt(d, base);
    AlignedNeeds(pageCount);
    assert Vacant(v, first);
    VacantRangePages(v, first, aligned, aligned * ENTRIES);
    VacantRangePages(v, first, aligned, pageCount);
  }

  /** Handing out table n leaves the tables after it vacant. */
  lemma VacantAfter(v: View, w: View, n: nat, count: nat)
    requires n in w && w == v[n := w[n]] && VacantRange(v, n, count) && 0 < count
    ensures VacantRange(w, n + 1, count - 1) && Vacant(v, n)
  {
    forall m | n + 1 <= m < n + count ensures Vacant(w, m) {
      assert Vacant(v, m);
    }
  }

  lemma AbsentStep(present: set<nat>, first: nat, count: nat)
    requires 0 < count
    ensures Absent(present, first, count) ==
            (if first in present then 0 else 1) + Absent(present + {first}, first + 1, count - 1)
  {
    AbsentOther(present, first, first + 1, count - 1);
  }

  // ---------------------------------------------------------------------
  // Page by page
  // ---------------------------------------------------------------------

  ghost predicate Passes(v: View, p: nat, pred: Pte -> bool) {
    Mapped(v, p) && pred(EntryAt(v, p))
  }

  ghost predicate AllPass(v: View, first: nat, count: nat, pred: Pte -> bool) {
    forall p: nat :: first <= p < first + count ==> Passes(v, p, pred)
  }

  lemma PassNone(v: View, first: nat, pred: Pte -> bool)
    ensures AllPass(v, first, 0, pred)
  {
  }

  lemma PassMore(v: View, first: nat, count: nat, pred: Pte -> bool)
    requires AllPass(v, first, count, pred) && Passes(v, first + count, pred)
    ensures AllPass(v, first, count + 1, pred)
  {
  }

  lemma PassesAt(v: View, n: nat, off: nat, pred: Pte -> bool)
    requires off < ENTRIES
    ensures n in v && |v[n]| == ENTRIES ==> (Passes(v, Page(n, off), pred) <==> pred(v[n][off]))
    ensures n !in v ==> !Passes(v, Page(n, off), pred)
  {
    assert Page(n, off) / ENTRIES == n && Page(n, off) % ENTRIES == off;
  }

  lemma PassBoth(v: View, first: nat, count: nat, more: nat, pred: Pte -> bool)
    requires AllPass(v, first, count, pred) && AllPass(v, first + count, more, pred)
    ensures AllPass(v, first, count + more, pred)
  {
  }

  lemma NextPage(n: nat, off: nat)
    requires off < ENTRIES
    ensures 0 < ENTRIES && Page(n, off + 1) == Page(n, off) + 1
    ensures off + 1 == ENTRIES ==> Page(n, off + 1) == Page(n + 1, 0)
  {
  }

  lemma StartOf(p: nat)
    ensures Page(TableOf(p), EntryOf(p)) == p && EntryOf(p) < ENTRIES
  {
  }

  lemma ReservedIsNotFree(v: View, n: nat, off: nat)
    requires StateAt(v, Page(n, off)) == PageState.Reserved
    ensures StateAt(v, Page(n, off)) != Free
  {
  }

  lemma PageShift(n: nat, off: nat, i: nat)
    ensures Page(n, off + i) == Page(n, off) + i
  {
  }

  ghost predicate RegularView(v: View) {
    forall n :: n in v ==> Regular(v[n])
  }

  /** The check of user_vspace::release on one entry. */
  predicate Releasable(e: Pte) {
    if e.bypass then false else if e.present then e.frame != 0 && e.user else e.preserve
  }

  /** The check of user_vspace::commit on one entry. */
  predicate Committable(e: Pte) {
    e.preserve && !e.bypass && !e.present
  }

  /** The check of user_vspace::protect on one entry. */
  predicate Protectable(e: Pte) {
    e.present && !e.bypass && e.user && e.frame != 0
  }

  /** What the three checks say about the state of a page. */
  lemma ChecksMean(v: View, p: nat)
    requires RegularView(v)
    ensures Passes(v, p, Releasable) <==> StateAt(v, p) != Free
    ensures Passes(v, p, Committable) <==> StateAt(v, p) == PageState.Reserved
    ensures Passes(v, p, Protectable) <==> StateAt(v, p).Committed?
  {
    if Mapped(v, p) {
      assert Regular(v[p / ENTRIES]);
    }
  }

  /** A reserved entry e was committed: the page is writable, not executable, and
      open to the user; all but that and the frame is as before. */
  ghost predicate CommittedFrom(e: Pte, e': Pte) {
    && e'.present && e'.user && e'.frame != 0
    && e'.attr.write && e'.attr.xd && !e'.attr.pat
    && e'.attr.wt == e.attr.wt && e'.attr.cd == e.attr.cd && e'.attr.global == e.attr.global
    && e'.preserve == e.preserve && e'.bypass == e.bypass
    && e'.tag == e.tag && e'.valid == e.valid && e'.data == e.data
  }

  /** Every entry of the range is committed; no other has changed. */
  ghost predicate RangeCommitted(v: View, w: View, first: nat, count: nat) {
    forall p: nat ::
      && Mapped(w, p) == Mapped(v, p)
      && (Mapped(v, p) ==> if first <= p < first + count then CommittedFrom(EntryAt(v, p), EntryAt(w, p))
        else EntryAt(w, p) == EntryAt(v, p))
  }

  lemma CommittedNone(v: View, first: nat)
    ensures RangeCommitted(v, v, first, 0)
  {
  }

  lemma CommittedMore(v: View, w: View, n: nat, off: nat, first: nat, count: nat, f: nat)
    requires RangeCommitted(v, w, first, count) && Page(n, off) == first + count && f != 0
    requires n in w && |w[n]| == ENTRIES && off < ENTRIES
    ensures RangeCommitted(v, w[n := w[n][off := CommitEntry(w[n][off], f)]], first, count + 1)
  {
    var x := w[n := w[n][off := CommitEntry(w[n][off], f)]];
    assert Page(n, off) / ENTRIES == n && Page(n, off) % ENTRIES == off;
    forall p: nat
      ensures Mapped(x, p) == Mapped(v, p)
      ensures Mapped(v, p) && first <= p < first + count + 1 ==> CommittedFrom(EntryAt(v, p), EntryAt(x, p))
      ensures Mapped(v, p) && !(first <= p < first + count + 1) ==> EntryAt(x, p) == EntryAt(v, p)
    {
      assert Mapped(w, p) == Mapped(v, p);
      if Mapped(v, p) && p == Page(n, off) {
        assert EntryAt(w, p) == EntryAt(v, p);
      } else if Mapped(v, p) {
        assert EntryAt(x, p) == EntryAt(w, p);
      }
    }
  }

  lemma StillReserved(v: View, w: View, first: nat, count: nat, done: nat)
    requires RangeIs(v, first, count, Reserved) && RangeCommitted(v, w, first, done) && done < count
    ensures StateAt(w, first + done) == PageState.Reserved
  {
    assert Mapped(w, first + done) == Mapped(v, first + done);
    assert StateAt(v, first + done) == PageState.Reserved;
  }

  /** The entry that the second callback of commit leaves. */
  function CommitEntry(e: Pte, f: nat): Pte {
    e.(frame := f, attr := e.attr.(xd := true, pat := false, write := true), user := true, present := true)
  }

  /** Page p alone is in another state. */
  ghost predicate StateBecomes(v: View, w: View, p: nat, s: PageState) {
    forall q: nat :: StateAt(w, q) == if q == p then s else StateAt(v, q)
  }

  lemma CommitOne(v: View, n: nat, off: nat, f: nat)
    requires n in v && Regular(v[n]) && off < ENTRIES && f != 0
    requires StateAt(v, Page(n, off)) == PageState.Reserved
    ensures !Unused(v[n][off]) && !Unused(CommitEntry(v[n][off], f))
    ensures var e := CommitEntry(v[n][off], f); !e.bypass && e.present && e.preserve && e.user && e.frame != 0
    ensures StateBecomes(v, v[n := v[n][off := CommitEntry(v[n][off], f)]], Page(n, off), Committed(f))
  {
    assert Page(n, off) / ENTRIES == n && Page(n, off) % ENTRIES == off;
    var w := v[n := v[n][off := CommitEntry(v[n][off], f)]];
    forall p: nat ensures StateAt(w, p) == if p == Page(n, off) then Committed(f) else StateAt(v, p) {
      StateIs(v, n, w[n], p);
    }
  }

  lemma AccountCommitted(cr3: nat, pl4te: nat, dirs: map<nat, nat>, tabs: map<nat, nat>, v: View, w: View,
      F: map<Place, nat>,
                         p: nat, f: nat)
    requires Accounts(cr3, pl4te, dirs, tabs, v, F)
    requires StateAt(v, p) == PageState.Reserved && StateBecomes(v, w, p, Committed(f))
    ensures Leaf(p) !in F
    ensures Accounts(cr3, pl4te, dirs, tabs, w, With(F, Leaf(p), f))
  {
    forall q: nat ensures Leaf(q) in With(F, Leaf(p), f) <==> StateAt(w, q).Committed? {
      assert StateAt(w, q) == if q == p then Committed(f) else StateAt(v, q);
    }
  }

  /** user_vspace::common_check */
  predicate CommonCheck(first: nat, count: nat) {
    0 < first && 0 < count && first + count <= PAGES
  }

  lemma ReleasableRange(v: View, first: nat, count: nat, passed: nat)
    requires RegularView(v) && passed <= count && AllPass(v, first, passed, Releasable)
    requires passed < count ==> !Passes(v, first + passed, Releasable)
    ensures passed == count <==> RangeHeld(v, first, count)
  {
    forall p: nat ensures Passes(v, p, Releasable) <==> StateAt(v, p) != Free {
      ChecksMean(v, p);
    }
  }

  lemma CommittableRange(v: View, first: nat, count: nat, passed: nat)
    requires RegularView(v) && passed <= count && AllPass(v, first, passed, Committable)
    requires passed < count ==> !Passes(v, first + passed, Committable)
    ensures passed == count <==> RangeIs(v, first, count, Reserved)
  {
    forall p: nat ensures Passes(v, p, Committable) <==> StateAt(v, p) == PageState.Reserved {
      ChecksMean(v, p);
    }
  }

  ghost predicate AllCommitted(v: View, first: nat, count: nat) {
    forall p: nat :: first <= p < first + count ==> StateAt(v, p).Committed?
  }

  lemma ProtectableRange(v: View, first: nat, count: nat, passed: nat)
    requires RegularView(v) && passed <= count && AllPass(v, first, passed, Protectable)
    requires passed < count ==> !Passes(v, first + passed, Protectable)
    ensures passed == count <==> AllCommitted(v, first, count)
  {
    forall p: nat ensures Passes(v, p, Protectable) <==> StateAt(v, p).Committed? {
      ChecksMean(v, p);
    }
  }

  lemma ReservedTable(v: View, n: nat, off: nat)
    requires StateAt(v, Page(n, off)) != Free && off < ENTRIES
    ensures n in v
  {
  }

  /** The entry that the callback of protect leaves. */
  function ProtectEntry(e: Pte, a: Attributes): Pte {
    e.(attr := a.(pat := e.attr.pat))
  }

  /** The attributes of a committed entry e were replaced by those of a, except for
      pat; all else is as before. */
  ghost predicate ProtectedFrom(e: Pte, e': Pte, a: Attributes) {
    && e'.attr.write == a.write && e'.attr.xd == a.xd && e'.attr.global == a.global
    && e'.attr.cd == a.cd && e'.attr.wt == a.wt && e'.attr.pat == e.attr.pat
    && e'.present == e.present && e'.user == e.user && e'.frame == e.frame
    && e'.preserve == e.preserve && e'.bypass == e.bypass
    && e'.tag == e.tag && e'.valid == e.valid && e'.data == e.data
  }

  /** Every entry of the range has its attributes replaced; no other has changed. */
  ghost predicate RangeProtected(v: View, w: View, first: nat, count: nat, a: Attributes) {
    forall p: nat ::
      && Mapped(w, p) == Mapped(v, p)
      && (Mapped(v, p) ==> if first <= p < first + count then ProtectedFrom(EntryAt(v, p), EntryAt(w, p), a)
        else EntryAt(w, p) == EntryAt(v, p))
  }

  lemma ProtectedNone(v: View, first: nat, a: Attributes)
    ensures RangeProtected(v, v, first, 0, a)
  {
  }

  lemma ProtectedMore(v: View, w: View, n: nat, off: nat, first: nat, count: nat, a: Attributes)
    requires RangeProtected(v, w, first, count, a) && Page(n, off) == first + count
    requires n in w && |w[n]| == ENTRIES && off < ENTRIES
    ensures RangeProtected(v, w[n := w[n][off := ProtectEntry(w[n][off], a)]], first, count + 1, a)
  {
    var x := w[n := w[n][off := ProtectEntry(w[n][off], a)]];
    assert Page(n, off) / ENTRIES == n && Page(n, off) % ENTRIES == off;
    forall p: nat
      ensures Mapped(x, p) == Mapped(v, p)
      ensures Mapped(v, p) && first <= p < first + count + 1 ==> ProtectedFrom(EntryAt(v, p), EntryAt(x, p), a)
      ensures Mapped(v, p) && !(first <= p < first + count + 1) ==> EntryAt(x, p) == EntryAt(v, p)
    {
      assert Mapped(w, p) == Mapped(v, p);
      if Mapped(v, p) && p == Page(n, off) {
        assert EntryAt(w, p) == EntryAt(v, p);
      } else if Mapped(v, p) {
        assert EntryAt(x, p) == EntryAt(w, p);
      }
    }
  }

  lemma ProtectedSame(v: View, w: View, first: nat, count: nat, a: Attributes)
    requires RangeProtected(v, w, first, count, a)
    ensures SameStates(v, w)
  {
    forall p: nat ensures StateAt(w, p) == StateAt(v, p) {
      assert Mapped(w, p) == Mapped(v, p);
    }
  }

  lemma AccountSame(cr3: nat, pl4te: nat, dirs: map<nat, nat>, tabs: map<nat, nat>, v: View, w: View,
      F: map<Place, nat>)
    requires Accounts(cr3, pl4te, dirs, tabs, v, F) && SameStates(v, w)
    ensures Accounts(cr3, pl4te, dirs, tabs, w, F)
  {
  }

  lemma ProtectOne(v: View, n: nat, off: nat, a: Attributes)
    requires n in v && Regular(v[n]) && off < ENTRIES && StateAt(v, Page(n, off)).Committed?
    ensures !Unused(v[n][off]) && !Unused(ProtectEntry(v[n][off], a))
    ensures var e := ProtectEntry(v[n][off], a); !e.bypass && e.present && e.preserve && e.user && e.frame != 0
    ensures SameStates(v, v[n := v[n][off := ProtectEntry(v[n][off], a)]])
  {
    assert Page(n, off) / ENTRIES == n && Page(n, off) % ENTRIES == off;
    var w := v[n := v[n][off := ProtectEntry(v[n][off], a)]];
    forall p: nat ensures StateAt(w, p) == StateAt(v, p) {
      StateIs(v, n, w[n], p);
    }
  }

  lemma StillCommitted(v: View, w: View, first: nat, count: nat, done: nat)
    requires AllCommitted(v, first, count) && SameStates(v, w) && done < count
    ensures StateAt(w, first + done).Committed? && StateAt(w, first + done) != Free
  {
  }

  // ---------------------------------------------------------------------
  // Teardown
  // ---------------------------------------------------------------------

  /** The places whose frames have not been given back when the destructor is
      about to look at directory d, table n and page p. */
  ghost predicate Pending(a: Place, d: nat, n: nat, p: nat) {
    match a
    case Root => true
    case Level4 => true
    case Directory(x) => d <= x
    case Table(m) => n <= m
    case Leaf(q) => p <= q
  }

  ghost function Rest(F: map<Place, nat>, d: nat, n: nat, p: nat): map<Place, nat> {
    map a | a in F && Pending(a, d, n, p) :: F[a]
  }

  lemma RestAll(F: map<Place, nat>)
    ensures Rest(F, 0, 0, 0) == F
  {
  }

  lemma RestSkipLeaf(F: map<Place, nat>, d: nat, n: nat, p: nat)
    requires Leaf(p) !in F
    ensures Rest(F, d, n, p + 1) == Rest(F, d, n, p)
  {
  }

  lemma RestTakeLeaf(F: map<Place, nat>, d: nat, n: nat, p: nat)
    requires Leaf(p) in F
    ensures Leaf(p) in Rest(F, d, n, p) && Rest(F, d, n, p)[Leaf(p)] == F[Leaf(p)]
    ensures Rest(F, d, n, p + 1) == Rest(F, d, n, p) - {Leaf(p)}
  {
  }

  lemma RestTakeTable(F: map<Place, nat>, d: nat, n: nat, p: nat)
    requires Table(n) in F
    ensures Table(n) in Rest(F, d, n, p) && Rest(F, d, n, p)[Table(n)] == F[Table(n)]
    ensures Rest(F, d, n + 1, p) == Rest(F, d, n, p) - {Table(n)}
  {
  }

  lemma RestSkipTable(F: map<Place, nat>, d: nat, n: nat)
    requires Table(n) !in F
    requires forall p :: Page(n, 0) <= p < Page(n + 1, 0) ==> Leaf(p) !in F
    ensures Rest(F, d, n + 1, Page(n + 1, 0)) == Rest(F, d, n, Page(n, 0))
  {
  }

  lemma RestTakeDirectory(F: map<Place, nat>, d: nat, n: nat, p: nat)
    requires Directory(d) in F
    ensures Directory(d) in Rest(F, d, n, p) && Rest(F, d, n, p)[Directory(d)] == F[Directory(d)]
    ensures Rest(F, d + 1, n, p) == Rest(F, d, n, p) - {Directory(d)}
  {
  }

  lemma RestSkipDirectory(F: map<Place, nat>, d: nat)
    requires Directory(d) !in F
    requires forall n :: TableAt(d, 0) <= n < TableAt(d + 1, 0) ==> Table(n) !in F
    requires forall p :: Page(TableAt(d, 0), 0) <= p < Page(TableAt(d + 1, 0), 0) ==> Leaf(p) !in F
    ensures Rest(F, d + 1, TableAt(d + 1, 0), Page(TableAt(d + 1, 0), 0)) ==
      Rest(F, d, TableAt(d, 0), Page(TableAt(d, 0), 0))
  {
  }

  /** The page tables hold what v says, from table n on, and are distinct objects. */
  ghost predicate Holds(T: map<nat, PageTable>, R: set<object>, v: View, n: nat)
    reads R
  {
    && (forall m :: m in T ==> T[m].pte in R)
    && (forall i, j :: i in T && j in T && i != j ==> T[i].pte != T[j].pte)
    && (forall m :: m in T && n <= m ==> m in v && T[m].pte[..] == v[m] && |v[m]| == ENTRIES)
  }

  lemma HoldsAll(T: map<nat, PageTable>, R: set<object>)
    requires Objects(T, R)
    ensures Holds(T, R, ViewOf(T, R), 0)
  {
  }

  lemma HoldsLater(T: map<nat, PageTable>, R: set<object>, v: View, m: nat, n: nat)
    requires Holds(T, R, v, m) && m <= n
    ensures Holds(T, R, v, n)
  {
  }

  lemma HoldsAt(T: map<nat, PageTable>, R: set<object>, v: View, n: nat)
    requires Holds(T, R, v, n) && n in T
    ensures T[n].pte in R && n in v && T[n].pte[..] == v[n] && T[n].pte.Length == ENTRIES
  {
  }

  /** A place that is not there is not in F. */
  lemma MissingTable(cr3: nat, pl4te: nat, dirs: map<nat, nat>, tabs: map<nat, nat>, v: View, F: map<Place, nat>,
      n: nat)
    requires Accounts(cr3, pl4te, dirs, tabs, v, F) && n !in tabs && v.Keys == tabs.Keys
    ensures Table(n) !in F && forall p :: Page(n, 0) <= p < Page(n + 1, 0) ==> Leaf(p) !in F
  {
    forall p: nat | Page(n, 0) <= p < Page(n + 1, 0) ensures Leaf(p) !in F {
      assert StateAt(v, p) == Free;
    }
  }

  lemma MissingDirectory(cr3: nat, pl4te: nat, dirs: map<nat, nat>, tabs: map<nat, nat>, v: View, F: map<Place, nat>,
      d: nat)
    requires Accounts(cr3, pl4te, dirs, tabs, v, F) && d !in dirs && v.Keys == tabs.Keys && Grid(dirs.Keys, tabs.Keys)
    ensures Directory(d) !in F
    ensures forall n :: TableAt(d, 0) <= n < TableAt(d + 1, 0) ==> Table(n) !in F
    ensures forall p :: Page(TableAt(d, 0), 0) <= p < Page(TableAt(d + 1, 0), 0) ==> Leaf(p) !in F
  {
    forall n: nat | TableAt(d, 0) <= n < TableAt(d + 1, 0) ensures n !in tabs {
      assert DirOf(n) == d;
    }
    forall p: nat | Page(TableAt(d, 0), 0) <= p < Page(TableAt(d + 1, 0), 0) ensures Leaf(p) !in F {
      assert TableAt(d, 0) <= p / ENTRIES < TableAt(d + 1, 0);
      assert StateAt(v, p) == Free;
    }
  }

  lemma OwnedPlaces(cr3: nat, pl4te: nat, dirs: map<nat, nat>, tabs: map<nat, nat>, v: View, F: map<Place, nat>)
    requires Accounts(cr3, pl4te, dirs, tabs, v, F)
    ensures Root in F && F[Root] == cr3 && Level4 in F && F[Level4] == pl4te
    ensures forall d :: d in dirs ==> Directory(d) in F && F[Directory(d)] == dirs[d]
    ensures forall n :: n in tabs ==> Table(n) in F && F[Table(n)] == tabs[n]
  {
  }

  lemma OwnedLeaf(cr3: nat, pl4te: nat, dirs: map<nat, nat>, tabs: map<nat, nat>, v: View, F: map<Place, nat>, n: nat,
      j: nat)
    requires Accounts(cr3, pl4te, dirs, tabs, v, F) && n in v && |v[n]| == ENTRIES && j < ENTRIES
    ensures Leaf(Page(n, j)) in F <==> v[n][j].present
    ensures v[n][j].present ==> F[Leaf(Page(n, j))] == v[n][j].frame
  {
    LeafAt(v, F, n, j);
  }

  /** What is left when everything below the top has been given back. */
  lemma RestTop(cr3: nat, pl4te: nat, dirs: map<nat, nat>, tabs: map<nat, nat>, v: View, F: map<Place, nat>)
    requires Accounts(cr3, pl4te, dirs, tabs, v, F) && v.Keys == tabs.Keys && Grid(dirs.Keys, tabs.Keys)
    ensures var G := Rest(F, SLOTS, TABLES, PAGES); G == map[Root := cr3, Level4 := pl4te]
  {
    forall q: nat | Leaf(q) in F ensures q < PAGES {
      assert StateAt(v, q).Committed?;
      assert q / ENTRIES in tabs;
    }
    forall m: nat | Table(m) in F ensures m < TABLES {
      assert m in tabs;
    }
    forall d: nat | Directory(d) in F ensures d < SLOTS {
      assert d in dirs;
    }
    var G := Rest(F, SLOTS, TABLES, PAGES);
    forall a | a in G ensures a == Root || a == Level4 {
    }
  }

  datatype Kind = Dirs | Tabs | Leaves

  function PlaceOf(k: Kind, x: nat): Place {
    match k
    case Dirs => Directory(x)
    case Tabs => Table(x)
    case Leaves => Leaf(x)
  }

  ghost function Image(k: Kind, s: set<nat>): set<Place> {
    set x | x in s :: PlaceOf(k, x)
  }

  lemma {:induction false} ImageCard(k: Kind, s: set<nat>)
    ensures |Image(k, s)| == |s|
    decreases |s|
  {
    if s != {} {
      var a :| a in s;
      ImageCard(k, s - {a});
      assert Image(k, s) == Image(k, s - {a}) + {PlaceOf(k, a)};
    }
  }

  ghost function CommittedPages(v: View): set<nat> {
    set p: nat | p < PAGES && StateAt(v, p).Committed? :: p
  }

  lemma PlacesAre(cr3: nat, pl4te: nat, dirs: map<nat, nat>, tabs: map<nat, nat>, v: View, F: map<Place, nat>)
    requires Accounts(cr3, pl4te, dirs, tabs, v, F) && forall n :: n in v ==> n < TABLES
    ensures F.Keys ==
      {Root} + {Level4} + Image(Dirs, dirs.Keys) + Image(Tabs, tabs.Keys) + Image(Leaves, CommittedPages(v))
  {
    forall a ensures a in F <==>
      a in {Root} + {Level4} + Image(Dirs, dirs.Keys) + Image(Tabs, tabs.Keys) + Image(Leaves, CommittedPages(v)) {
      hide StateAt;
      match a
      case Root =>
      case Level4 =>
      case Directory(d) =>
        assert PlaceOf(Dirs, d) == a;
      case Table(n) =>
        assert PlaceOf(Tabs, n) == a;
      case Leaf(p) =>
        CommittedIsPage(v, p);
        assert PlaceOf(Leaves, p) == a;
    }
  }

  lemma CommittedIsPage(v: View, p: nat)
    requires forall n :: n in v ==> n < TABLES
    ensures StateAt(v, p).Committed? <==> p in CommittedPages(v)
  {
  }

  lemma CensusOf(cr3: nat, pl4te: nat, dirs: map<nat, nat>, tabs: map<nat, nat>, v: View, F: map<Place, nat>)
    requires Accounts(cr3, pl4te, dirs, tabs, v, F) && forall n :: n in v ==> n < TABLES
    ensures |F| == 2 + |dirs| + |tabs| + |CommittedPages(v)|
  {
    PlacesAre(cr3, pl4te, dirs, tabs, v, F);
    ImagesApart(dirs.Keys, tabs.Keys, CommittedPages(v));
    hide *;
    ImageCard(Dirs, dirs.Keys);
    ImageCard(Tabs, tabs.Keys);
    ImageCard(Leaves, CommittedPages(v));
    UnionCard({Root} + {Level4}, Image(Dirs, dirs.Keys));
    UnionCard({Root} + {Level4} + Image(Dirs, dirs.Keys), Image(Tabs, tabs.Keys));
    UnionCard({Root} + {Level4} + Image(Dirs, dirs.Keys) + Image(Tabs, tabs.Keys), Image(Leaves, CommittedPages(v)));
    UnionCard({Root}, {Level4});
    assert |F| == |F.Keys| && |dirs| == |dirs.Keys| && |tabs| == |tabs.Keys|;
  }

  lemma ImagesApart(A: set<nat>, B: set<nat>, C: set<nat>)
    ensures {Root} + {Level4} !! Image(Dirs, A)
    ensures {Root} + {Level4} + Image(Dirs, A) !! Image(Tabs, B)
    ensures {Root} + {Level4} + Image(Dirs, A) + Image(Tabs, B) !! Image(Leaves, C)
  {
  }

  lemma UnionCard(a: set<Place>, b: set<Place>)
    requires a !! b
    ensures |a + b| == |a| + |b|
  {
  }

  lemma LastPage()
    ensures TableAt(SLOTS, 0) == TABLES && Page(TABLES, 0) == PAGES
    ensures TableAt(0, 0) == 0 && Page(0, 0) == 0
  {
  }

  lemma TableLater(d: nat)
    ensures TableAt(d, 0) <= TableAt(d + 1, 0)
  {
  }

  lemma TableSpan(n: nat)
    ensures Page(n, ENTRIES) == Page(n + 1, 0)
  {
  }

  lemma Emptied(top: map<Place, nat>)
    requires top.Keys == {Root, Level4}
    ensures |top - {Level4} - {Root}| == 0
    ensures Level4 in top && Root in top - {Level4} && (top - {Level4})[Root] == top[Root]
  {
    assert (top - {Level4} - {Root}).Keys == {};
  }

  lemma NoTableZero(dirs: set<nat>, tables: set<nat>)
    requires Grid(dirs, tables)
    ensures 0 !in tables
  {
  }

  lemma GridDirectory(dirs: set<nat>, tables: set<nat>, n: nat)
    requires Grid(dirs, tables) && DirOf(n) !in dirs
    ensures n !in tables
  {
  }

  lemma SameRange(v: View, w: View, first: nat, count: nat)
    requires SamePages(v, w)
    ensures RangeIs(v, first, count, Free) <==> RangeIs(w, first, count, Free)
  {
  }

  lemma SameThenBecomes(v: View, w: View, x: View, first: nat, count: nat, s: PageState)
    requires SamePages(v, w)
    ensures RangeBecomes(w, x, first, count, s) ==> RangeBecomes(v, x, first, count, s)
    ensures w == x ==> SamePages(v, x)
  {
  }

  /** Releasing entries of table n is freeing the pages they stand for. */
  lemma ReleasedPages(v: View, n: nat, t: seq<Pte>, off: nat, size: nat)
    requires n in v && Regular(v[n]) && off + size <= ENTRIES
    requires PageTables.Released(v[n], t, off, size)
    ensures RangeBecomes(v, v[n := t], Page(n, off), size, Free)
  {
    ReleasedRegular(v[n], t, off, size);
    MarksStay(v, n, t);
    forall p: nat
      ensures StateAt(v[n := t], p) == if n * ENTRIES + off <= p < n * ENTRIES + off + size then Free else StateAt(v, p)
    {
      StateIs(v, n, t, p);
    }
  }

  /** The committed pages of the range. */
  ghost function LeavesIn(F: map<Place, nat>, first: nat, count: nat): set<Place> {
    set a | a in F && a.Leaf? && first <= a.p < first + count
  }

  ghost function Without(F: map<Place, nat>, A: set<Place>): map<Place, nat> {
    F - A
  }

  ghost function ValuesAt(F: map<Place, nat>, A: set<Place>): set<nat>
    requires A <= F.Keys
  {
    set a | a in A :: F[a]
  }

  /** Held pages of table n, seen as entries. */
  lemma HeldEntries(v: View, n: nat, off: nat, size: nat)
    requires n in v && |v[n]| == ENTRIES && Regular(v[n]) && off + size <= ENTRIES
    requires RangeHeld(v, Page(n, off), size)
    ensures AllHeld(v[n], off, size)
  {
    forall j | off <= j < off + size ensures Held(v[n][j]) {
      assert StateAt(v, n * ENTRIES + j) != Free;
      assert (n * ENTRIES + j) / ENTRIES == n && (n * ENTRIES + j) % ENTRIES == j;
    }
  }

  lemma LeafAt(v: View, F: map<Place, nat>, n: nat, j: nat)
    requires n in v && |v[n]| == ENTRIES && j < ENTRIES
    requires forall p :: Leaf(p) in F <==> StateAt(v, p).Committed?
    requires forall p :: Leaf(p) in F ==> StateAt(v, p) == Committed(F[Leaf(p)])
    ensures Leaf(n * ENTRIES + j) in F <==> v[n][j].present
    ensures v[n][j].present ==> F[Leaf(n * ENTRIES + j)] == v[n][j].frame
  {
    var p := n * ENTRIES + j;
    assert p / ENTRIES == n && p % ENTRIES == j;
    assert Leaf(p) in F <==> StateAt(v, p).Committed?;
  }

  /** The frames that releasing the range gives back are the ones its leaves own. */
  lemma FramesOfLeaves(cr3: nat, pl4te: nat, dirs: map<nat, nat>, tabs: map<nat, nat>, v: View, F: map<Place, nat>,
                       free: set<nat>, limit: nat, n: nat, off: nat, size: nat)
    requires Accounts(cr3, pl4te, dirs, tabs, v, F) && Owned(F, free, limit)
    requires n in v && |v[n]| == ENTRIES && off + size <= ENTRIES
    ensures LeavesIn(F, Page(n, off), size) <= F.Keys
    ensures FramesIn(v[n], off, size) == ValuesAt(F, LeavesIn(F, Page(n, off), size))
    ensures DistinctFrames(v[n], off, size)
    ensures forall f :: f in FramesIn(v[n], off, size) ==> f < limit && f !in free
  {
    var A := LeavesIn(F, n * ENTRIES + off, size);
    forall j | off <= j < off + size
      ensures Leaf(n * ENTRIES + j) in F <==> v[n][j].present
      ensures v[n][j].present ==> Leaf(n * ENTRIES + j) in A && F[Leaf(n * ENTRIES + j)] == v[n][j].frame
    {
      LeafAt(v, F, n, j);
    }
    forall a | a in A ensures F[a] in FramesIn(v[n], off, size) {
      var j := a.p - n * ENTRIES;
      assert a == Leaf(n * ENTRIES + j);
      assert v[n][j].present && v[n][j].frame == F[a];
    }
    forall i, j | off <= i < j < off + size && v[n][i].present && v[n][j].present
      ensures v[n][i].frame != v[n][j].frame
    {
      assert Leaf(n * ENTRIES + i) != Leaf(n * ENTRIES + j);
    }
  }

  lemma AccountReserved(cr3: nat, pl4te: nat, dirs: map<nat, nat>, tabs: map<nat, nat>, v: View, v': View,
      F: map<Place, nat>,
                        first: nat, count: nat)
    requires Accounts(cr3, pl4te, dirs, tabs, v, F)
    requires RangeIs(v, first, count, Free) && RangeBecomes(v, v', first, count, Reserved)
    ensures Accounts(cr3, pl4te, dirs, tabs, v', F)
  {
    forall p: nat ensures Leaf(p) in F <==> StateAt(v', p).Committed? {
      assert StateAt(v', p) == if first <= p < first + count then PageState.Reserved else StateAt(v, p);
    }
  }

  lemma AccountReleased(cr3: nat, pl4te: nat, dirs: map<nat, nat>, tabs: map<nat, nat>, v: View, v': View,
      F: map<Place, nat>,
                        first: nat, count: nat)
    requires Accounts(cr3, pl4te, dirs, tabs, v, F) && RangeBecomes(v, v', first, count, Free)
    ensures Accounts(cr3, pl4te, dirs, tabs, v', Without(F, LeavesIn(F, first, count)))
  {
    var G := F - LeavesIn(F, first, count);
    forall p: nat ensures Leaf(p) in G <==> StateAt(v', p).Committed? {
      assert StateAt(v', p) == if first <= p < first + count then Free else StateAt(v, p);
    }
  }

  lemma ValuesStep(F: map<Place, nat>, A: set<Place>, a: Place)
    requires A <= F.Keys && a in A
    requires forall x, y :: x in F && y in F && x != y ==> F[x] != F[y]
    ensures A - {a} <= (F - {a}).Keys
    ensures ValuesAt(F, A) == {F[a]} + ValuesAt(F - {a}, A - {a})
    ensures F[a] !in ValuesAt(F - {a}, A - {a})
  {
    var G := F - {a};
    assert A - {a} <= G.Keys;
    forall f | f in ValuesAt(F, A) ensures f in {F[a]} + ValuesAt(G, A - {a}) {
      var b :| b in A && F[b] == f;
      if b != a {
        assert b in A - {a} && G[b] == f;
      }
    }
    forall f | f in ValuesAt(G, A - {a}) ensures f in ValuesAt(F, A) && f != F[a] {
      var b :| b in A - {a} && G[b] == f;
      assert b in A && F[b] == f;
    }
  }

  lemma RemoveStep(F: map<Place, nat>, A: set<Place>, a: Place)
    requires a in A
    ensures |A - {a}| == |A| - 1 && Without(F - {a}, A - {a}) == Without(F, A)
  {
  }

  lemma AddStep(f: nat, rest: set<nat>)
    requires f !in rest
    ensures |{f} + rest| == |rest| + 1
  {
  }

  lemma OwnLessNone(F: map<Place, nat>, free: set<nat>)
    ensures Without(F, {}) == F && ValuesAt(F, {}) == {} && free + {} == free
  {
  }

  lemma OwnedDistinct(F: map<Place, nat>, free: set<nat>, limit: nat)
    requires Owned(F, free, limit)
    ensures forall x, y :: x in F && y in F && x != y ==> F[x] != F[y]
  {
  }

  lemma SetShift(free: set<nat>, f: nat, rest: set<nat>)
    ensures free + {f} + rest == free + ({f} + rest)
  {
  }

  lemma {:induction false} OwnLessMany(F: map<Place, nat>, free: set<nat>, limit: nat, A: set<Place>)
    requires Owned(F, free, limit) && A <= F.Keys
    ensures Owned(Without(F, A), free + ValuesAt(F, A), limit)
    ensures |Without(F, A)| == |F| - |A| && |ValuesAt(F, A)| == |A|
    ensures Stock(free + ValuesAt(F, A), Without(F, A)) == Stock(free, F)
    decreases |A|
  {
    hide *;
    if A == {} {
      OwnLessNone(F, free);
    } else {
      var a :| a in A;
      OwnLess(F, free, limit, a);
      OwnedDistinct(F, free, limit);
      ValuesStep(F, A, a);
      RemoveStep(F, A, a);
      AddStep(F[a], ValuesAt(F - {a}, A - {a}));
      OwnLessMany(F - {a}, free + {F[a]}, limit, A - {a});
      SetShift(free, F[a], ValuesAt(F - {a}, A - {a}));
    }
  }

  ghost predicate Blank(t: seq<Pte>) {
    forall i :: 0 <= i < |t| ==> t[i].attr == ZERO.attr && t[i].user == ZERO.user
  }

  /** A table all of whose entries are unused and blank looks like no table. */
  lemma EmptyTable(v: View, n: nat, t: seq<Pte>)
    requires |t| == ENTRIES && n !in v && AllUnused(t, 0, ENTRIES) && Blank(t)
    ensures SamePages(v, v[n := t])
  {
    MarksStay(v, n, t);
    var v' := v[n := t];
    forall p: nat ensures StateAt(v', p) == StateAt(v, p) {
      if p / ENTRIES == n {
        assert Unused(t[p % ENTRIES]);
      }
    }
  }

  lemma AccountTable(cr3: nat, pl4te: nat, dirs: map<nat, nat>, tabs: map<nat, nat>, v: View, F: map<Place, nat>,
                     n: nat, t: seq<Pte>, f: nat)
    requires Accounts(cr3, pl4te, dirs, tabs, v, F) && n !in tabs && SameStates(v, v[n := t])
    ensures Table(n) !in F
    ensures Accounts(cr3, pl4te, dirs, tabs[n := f], v[n := t], With(F, Table(n), f))
  {
  }

  lemma FirstOwned(a: nat, b: nat, c: nat, free: set<nat>, limit: nat)
    requires a in free && b in Less(free, a) && c in Less(Less(free, a), b) && 0 !in free
    requires forall f :: f in free ==> f < limit
    ensures var F := With(With(With(map[], Root, a), Level4, b), Directory(0), c);
            && Owned(F, Less(Less(Less(free, a), b), c), limit)
            && |F| == 3 && Stock(Less(Less(Less(free, a), b), c), F) == free
  {
    var E: map<Place, nat> := map[];
    OwnedNone(free, limit);
    WithKeys(E, Root, a);
    WithKeys(With(E, Root, a), Level4, b);
    LessIs(free, a);
    LessIs(free - {a}, b);
    hide *;
    OwnMore(E, free, limit, Root, a);
    OwnMore(With(E, Root, a), Less(free, a), limit, Level4, b);
    OwnMore(With(With(E, Root, a), Level4, b), Less(Less(free, a), b), limit, Directory(0), c);
  }

  lemma StockIs(free: set<nat>, F: map<Place, nat>)
    ensures Stock(free, F) == free + F.Values
  {
  }

  lemma OwnedNone(free: set<nat>, limit: nat)
    requires 0 !in free
    ensures Owned(map[], free, limit) && Stock(free, map[]) == free
  {
  }

  lemma WithKeys(F: map<Place, nat>, a: Place, f: nat)
    ensures With(F, a, f).Keys == F.Keys + {a}
  {
  }

  lemma FirstAccounts(a: nat, b: nat, c: nat)
    ensures Accounts(a, b, map[0 := c], map[], map[], With(With(With(map[], Root, a), Level4, b), Directory(0), c))
  {
  }

  ghost function FirstFrames(a: nat, b: nat, c: nat): map<Place, nat> {
    With(With(With(map[], Root, a), Level4, b), Directory(0), c)
  }

  ghost function FirstFree(free: set<nat>, a: nat, b: nat, c: nat): set<nat> {
    Less(Less(Less(free, a), b), c)
  }

  lemma FirstFreeIs(free: set<nat>, a: nat, b: nat, c: nat)
    ensures FirstFree(free, a, b, c) == Less(Less(Less(free, a), b), c)
  {
  }

  lemma FirstState(a: nat, b: nat, c: nat, free: set<nat>, limit: nat)
    requires a in free && b in Less(free, a) && c in Less(Less(free, a), b) && 0 !in free
    requires forall f :: f in free ==> f < limit
    ensures Accounts(a, b, map[0 := c], map[], map[], FirstFrames(a, b, c))
    ensures Owned(FirstFrames(a, b, c), FirstFree(free, a, b, c), limit)
    ensures |FirstFrames(a, b, c)| == 3 && Stock(FirstFree(free, a, b, c), FirstFrames(a, b, c)) == free
  {
    hide With, Less, Owned, Accounts, Grid, Stock;
    FirstAccounts(a, b, c);
    FirstOwned(a, b, c, free, limit);
  }

  lemma FirstGrid(c: nat, T: map<nat, PageTable>)
    requires T == map[]
    ensures Grid(map[0 := c].Keys, T.Keys)
  {
  }

  lemma AccountDirectory(cr3: nat, pl4te: nat, dirs: map<nat, nat>, tabs: map<nat, nat>, v: View, F: map<Place, nat>,
      d: nat, f: nat)
    requires Accounts(cr3, pl4te, dirs, tabs, v, F) && d !in dirs
    ensures Directory(d) !in F
    ensures Accounts(cr3, pl4te, dirs[d := f], tabs, v, With(F, Directory(d), f))
  {
  }

  // ---------------------------------------------------------------------
  // The page table objects
  // ---------------------------------------------------------------------

  ghost function ViewOf(T: map<nat, PageTable>, R: set<object>): View
    requires Objects(T, R)
    reads R
  {
    map n | n in T :: T[n].pte[..]
  }

  ghost function TabsOf(T: map<nat, PageTable>): map<nat, nat> {
    map n | n in T :: T[n].frame
  }

  /** The table objects are distinct, each is valid, and R has them all. */
  ghost predicate Objects(T: map<nat, PageTable>, R: set<object>)
    reads R
  {
    && (forall n :: n in T ==> T[n] in R && T[n].pte in R)
    && (forall m, n :: m in T && n in T && m != n ==> T[m] != T[n] && T[m].pte != T[n].pte)
    && (forall n :: n in T ==> T[n].Valid() && Regular(T[n].pte[..]))
  }

  lemma ViewKeys(T: map<nat, PageTable>, R: set<object>)
    requires Objects(T, R)
    ensures ViewOf(T, R).Keys == T.Keys && TabsOf(T).Keys == T.Keys
    ensures forall n :: n in T ==> ViewOf(T, R)[n] == T[n].pte[..] && TabsOf(T)[n] == T[n].frame
  {
  }

  ghost function Grown(R: set<object>, table: PageTable): set<object> {
    R + {table, table.pte}
  }

  lemma GrownIs(R: set<object>, table: PageTable)
    ensures Grown(R, table) - R <= {table, table.pte}
    ensures forall o: object :: o !in R && o != table && o != table.pte ==> o !in Grown(R, table)
  {
  }

  lemma NoObjects()
    ensures Objects(map[], {}) && ViewOf(map[], {}) == map[] && TabsOf(map[]) == map[]
  {
  }

  lemma OneMoreObject(T: map<nat, PageTable>, R: set<object>, n: nat, table: PageTable)
    requires Objects(T, R) && n !in T
    requires table !in R && table.pte !in R && table.Valid() && Regular(table.pte[..])
    ensures Objects(T[n := table], Grown(R, table))
  {
    hide PageTable.Valid, Regular;
    var M := T[n := table];
    forall i, j | i in M && j in M && i != j ensures M[i] != M[j] && M[i].pte != M[j].pte {
      assert i in T || i == n;
      assert j in T || j == n;
    }
  }

  lemma OneMoreView(T: map<nat, PageTable>, R: set<object>, n: nat, table: PageTable)
    requires Objects(T, R) && n !in T
    requires Objects(T[n := table], Grown(R, table))
    ensures ViewOf(T[n := table], Grown(R, table)) == ViewOf(T, R)[n := table.pte[..]]
    ensures TabsOf(T[n := table]) == TabsOf(T)[n := table.frame]
  {
    hide Objects;
  }

  /** imp_reserve_fixed on table n; no other table changes. */
  method ReserveObject(T: map<nat, PageTable>, ghost R: set<object>, n: nat, off: nat, size: nat) returns (ok: bool)
    requires Objects(T, R) && n in T && 0 < size && off + size <= ENTRIES
    requires |ViewOf(T, R)[n]| == ENTRIES
    modifies T[n], T[n].pte
    ensures Objects(T, R)
    ensures ok <==> AllUnused(old(ViewOf(T, R)[n]), off, size)
    ensures ok ==> PageTables.Reserved(old(ViewOf(T, R)[n]), ViewOf(T, R)[n], off, size)
    ensures !ok ==> ViewOf(T, R)[n] == old(ViewOf(T, R)[n])
    ensures ViewOf(T, R) == old(ViewOf(T, R))[n := ViewOf(T, R)[n]]
  {
    hide PageTable.Valid, Regular, AllUnused, PageTables.Reserved;
    ghost var t := T[n].pte[..];
    T[n].ValidFacts();
    ok := T[n].ReserveFixed(off, size);
    if ok {
      ReservedRegular(t, T[n].pte[..], off, size);
    }
    forall m | m in T && m != n ensures T[m].Valid() && T[m].pte[..] == old(T[m].pte[..]) {
    }
  }

  /** imp_reserve_any on table n; no other table changes. */
  method ReserveAnyObject(T: map<nat, PageTable>, ghost R: set<object>, n: nat, size: nat) returns (res: Option<nat>)
    requires Objects(T, R) && n in T && 0 < size <= ENTRIES
    modifies T[n], T[n].pte
    ensures Objects(T, R)
    ensures res.None? <==> Cramped(old(ViewOf(T, R)[n]), size)
    ensures res.None? ==> ViewOf(T, R)[n] == old(ViewOf(T, R)[n])
    ensures res.Some? ==> PageTables.Reserved(old(ViewOf(T, R)[n]), ViewOf(T, R)[n], res.value, size)
    ensures res.Some? ==> EndOfTightest(old(ViewOf(T, R)[n]), res.value, size)
    ensures ViewOf(T, R) == old(ViewOf(T, R))[n := ViewOf(T, R)[n]]
  {
    hide PageTable.Valid, Regular, PageTables.Reserved, TightestFit, Cramped;
    ghost var t := T[n].pte[..];
    T[n].ValidFacts();
    res := T[n].ReserveAny(size);
    if res.Some? {
      ReservedRegular(t, T[n].pte[..], res.value, size);
    }
    forall m | m in T && m != n ensures T[m].Valid() && T[m].pte[..] == old(T[m].pte[..]) {
    }
  }

  /** imp_release on table n; no other table changes. */
  method ReleaseObject(T: map<nat, PageTable>, ghost R: set<object>, n: nat, pm: PM, off: nat,
      size: nat) returns (dropped: nat)
    requires Objects(T, R) && n in T && 0 < size && off + size <= ENTRIES && |ViewOf(T, R)[n]| == ENTRIES
    requires pm !in R && pm.bmp !in R
    requires AllHeld(ViewOf(T, R)[n], off, size) && DistinctFrames(ViewOf(T, R)[n], off, size)
    requires pm.Valid() && |FramesIn(ViewOf(T, R)[n], off, size)| <= pm.used
    requires forall f :: f in FramesIn(ViewOf(T, R)[n], off, size) ==> f < pm.bmpSize && f !in pm.free
    modifies T[n], T[n].pte, pm`used, pm`free, pm.bmp
    ensures Objects(T, R) && pm.Valid()
    ensures PageTables.Released(old(ViewOf(T, R)[n]), ViewOf(T, R)[n], off, size)
    ensures ViewOf(T, R) == old(ViewOf(T, R))[n := ViewOf(T, R)[n]]
    ensures dropped == |FramesIn(old(ViewOf(T, R)[n]), off, size)|
    ensures pm.free == old(pm.free) + FramesIn(old(ViewOf(T, R)[n]), off, size)
    ensures pm.used == old(pm.used) - dropped
  {
    hide PageTable.Valid, Regular, PM.Valid, AllHeld, FramesIn, PageTables.Released, DistinctFrames;
    ghost var t := T[n].pte[..];
    dropped := T[n].Release(pm, off, size);
    ReleasedRegular(t, T[n].pte[..], off, size);
    forall m | m in T && m != n ensures T[m].Valid() && T[m].pte[..] == old(T[m].pte[..]) {
    }
  }

  /** Rewriting one entry in use of table n; no other table changes. */
  method OverwriteObject(T: map<nat, PageTable>, ghost R: set<object>, n: nat, i: nat, e: Pte)
    requires Objects(T, R) && n in T && i < ENTRIES && |ViewOf(T, R)[n]| == ENTRIES
    requires !Unused(ViewOf(T, R)[n][i]) && !Unused(e)
    requires !e.bypass && (e.present ==> e.preserve && e.user && e.frame != 0)
    modifies T[n].pte
    ensures Objects(T, R)
    ensures ViewOf(T, R) == old(ViewOf(T, R))[n := old(ViewOf(T, R)[n])[i := e]]
  {
    hide PageTable.Valid;
    T[n].ValidFacts();
    T[n].Overwrite(i, e);
    forall m | m in T && m != n ensures T[m].Valid() && T[m].pte[..] == old(T[m].pte[..]) {
    }
  }

  method ThreePages(pm: PM) returns (a: nat, b: nat, c: nat)
    requires pm.Valid() && 0 !in pm.free && pm.used + pm.reserved + 3 <= pm.total
    modifies pm`used, pm`reserved, pm`next, pm`free, pm.bmp
    ensures pm.Valid() && pm.reserved == old(pm.reserved) && pm.used == old(pm.used) + 3
    ensures a in old(pm.free) && b in Less(old(pm.free), a) && c in Less(Less(old(pm.free), a), b)
    ensures pm.free == FirstFree(old(pm.free), a, b, c)
    ensures forall f :: f in old(pm.free) ==> f < pm.bmpSize
  {
    hide *;
    pm.Accounting();
    a := pm.Allocate(MustSucceed);
    pm.Accounting();
    b := pm.Allocate(MustSucceed);
    pm.Accounting();
    c := pm.Allocate(MustSucceed);
    LessIs(old(pm.free), a);
    LessIs(old(pm.free) - {a}, b);
    LessIs(old(pm.free) - {a} - {b}, c);
    FirstFreeIs(old(pm.free), a, b, c);
  }

  /** Takes a frame for a page table and lays the table out. */
  method MakeTable(pm: PM, take: bool) returns (table: PageTable?)
    requires pm.Valid() && 0 !in pm.free && (take ==> pm.reserved > 0)
    modifies pm`used, pm`reserved, pm`next, pm`free, pm.bmp
    ensures pm.Valid() && pm.reserved == old(pm.reserved) - (if take then 1 else 0)
    ensures table == null ==> !take && pm.free == old(pm.free) && pm.used == old(pm.used)
    ensures !take ==> (table == null <==> old(pm.used + pm.reserved + pm.hardLimit) >= pm.total)
    ensures table != null ==>
              && fresh(table) && fresh(table.pte) && table.Valid() && Regular(table.pte[..])
              && |table.pte[..]| == ENTRIES && AllUnused(table.pte[..], 0, ENTRIES) && Blank(table.pte[..])
              && table.GetMaxSize() == ENTRIES
              && table.frame in old(pm.free) && table.frame < pm.bmpSize
              && pm.free == Less(old(pm.free), table.frame) && pm.used == old(pm.used) + 1
  {
    hide *;
    pm.Accounting();
    var page := pm.Allocate(if take then Take else Ordinary);
    if page == 0 {
      return null;
    }
    LessIs(old(pm.free), page);
    table := new PageTable(page);
    table.ValidFacts();
    table.FieldIsExactAtEnds();
    FreshIsRegular(table.pte[..]);
    FreshIsBlank(table.pte[..]);
  }

  // ---------------------------------------------------------------------
  // The address space
  // ---------------------------------------------------------------------

  class UserSpace {
    const pm: PM
    const cr3: nat
    const pl4te: nat
    var dirs: map<nat, nat>
    var tables: map<nat, PageTable>
    var usedPages: nat
    ghost var F: map<Place, nat>
    ghost var view: View
    ghost var Repr: set<object>

    /** As Valid, while usedPages is behind by `lag`. */
    ghost predicate ValidBut(lag: nat)
      reads this, Repr, pm, pm.bmp
    {
      && this !in Repr && pm !in Repr && pm.bmp !in Repr
      && Objects(tables, Repr) && view == ViewOf(tables, Repr) && pm.Valid()
      && Grid(dirs.Keys, tables.Keys)
      && Accounts(cr3, pl4te, dirs, TabsOf(tables), view, F)
      && Owned(F, pm.free, pm.bmpSize)
      && usedPages + lag == |F| <= pm.used
    }

    ghost predicate Valid()
      reads this, Repr, pm, pm.bmp
    {
      ValidBut(0)
    }

    lemma Parts(lag: nat)
      requires ValidBut(lag) || (lag == 0 && Valid())
      ensures this !in Repr && pm !in Repr && pm.bmp !in Repr
      ensures Objects(tables, Repr) && pm.Valid() && Grid(dirs.Keys, tables.Keys)
      ensures view == ViewOf(tables, Repr)
      ensures Accounts(cr3, pl4te, dirs, TabsOf(tables), view, F) && Owned(F, pm.free, pm.bmpSize)
      ensures usedPages + lag == |F| <= pm.used && 0 !in pm.free
    {
    }

    lemma Whole(lag: nat)
      requires this !in Repr && pm !in Repr && pm.bmp !in Repr
      requires Objects(tables, Repr) && pm.Valid() && Grid(dirs.Keys, tables.Keys)
      requires view == ViewOf(tables, Repr)
      requires Accounts(cr3, pl4te, dirs, TabsOf(tables), view, F) && Owned(F, pm.free, pm.bmpSize)
      requires usedPages + lag == |F| <= pm.used
      ensures ValidBut(lag) && (lag == 0 ==> Valid())
    {
    }

    lemma IsLow()
      requires pm.used + pm.reserved + pm.hardLimit >= pm.total
      ensures LowMemory()
    {
    }

    /** The constructor: the two top tables and the directory of the lowest
        1G, whose first entry is set aside (`bypass`) and is never used. */
    constructor (phys: PM)
      requires phys.Valid() && 0 !in phys.free
      requires phys.used + phys.reserved + 3 <= phys.total
      modifies phys`used, phys`reserved, phys`next, phys`free, phys.bmp
      ensures Valid() && pm == phys && fresh(Repr)
      ensures dirs.Keys == {0} && tables == map[] && usedPages == 3
      ensures Stock(phys.free, F) == old(phys.free)
      ensures phys.reserved == old(phys.reserved)
    {
      hide *;
      var a, b, c := ThreePages(phys);
      pm := phys;
      cr3 := a;
      pl4te := b;
      dirs := map[0 := c];
      tables := map[];
      usedPages := 3;
      F := FirstFrames(a, b, c);
      Repr := {};
      view := map[];
      new;
      NoObjects();
      FirstState(a, b, c, old(phys.free), phys.bmpSize);
      FirstGrid(c, tables);
      Whole(0);
    }

    /** new_pdt */
    method NewDirectory(d: nat) returns (ok: bool)
      requires Valid() && d < SLOTS && d !in dirs
      modifies this`dirs, this`usedPages, this`F, pm`used, pm`reserved, pm`next, pm`free, pm.bmp
      ensures Valid()
      ensures view == old(view)
      ensures ok ==> dirs.Keys == old(dirs.Keys) + {d}
      ensures (ok <==> !old(LowMemory())) && pm.used == old(pm.used) + (if ok then 1 else 0)
      ensures !ok ==> dirs == old(dirs) && F == old(F) && pm.free == old(pm.free) && LowMemory()
      ensures Stock(pm.free, F) == old(Stock(pm.free, F))
      ensures pm.reserved == old(pm.reserved) && pm.used >= old(pm.used)
    {
      hide *;
      Parts(0);
      LowIs();
      pm.Accounting();
      var page := pm.Allocate(Ordinary);
      if page == 0 {
        Whole(0);
        IsLow();
        return false;
      }
      AccountDirectory(cr3, pl4te, dirs, TabsOf(tables), view, F, d, page);
      OwnMore(F, old(pm.free), pm.bmpSize, Directory(d), page);
      GridMore(dirs.Keys, tables.Keys, d);
      KeysMore(dirs, d, page);
      dirs := dirs[d := page];
      F := With(F, Directory(d), page);
      LessIs(old(pm.free), page);
      usedPages := usedPages + 1;
      Whole(0);
      return true;
    }

    /** new_pt: with `take` the frame comes out of what has been reserved. */
    method NewTable(n: nat, take: bool) returns (ok: bool)
      requires Valid() && 0 < n < TABLES && DirOf(n) in dirs && n !in tables
      requires take ==> pm.reserved > 0
      modifies this`tables, this`usedPages, this`F, this`Repr, this`view, pm`used, pm`reserved, pm`next, pm`free, pm.bmp
      ensures Valid() && fresh(Repr - old(Repr))
      ensures ok ==> tables.Keys == old(tables.Keys) + {n} && tables[n].GetMaxSize() == ENTRIES
      ensures ok ==> view == old(view)[n := tables[n].pte[..]]
      ensures SamePages(old(view), view)
      ensures take ==> ok
      ensures pm.used >= old(pm.used)
      ensures !ok ==> tables == old(tables) && view == old(view) && LowMemory()
      ensures !take ==> (ok <==> !old(LowMemory()))
      ensures Stock(pm.free, F) == old(Stock(pm.free, F))
      ensures pm.reserved == old(pm.reserved) - (if take then 1 else 0)
    {
      hide *;
      Parts(0);
      LowIs();
      var table := MakeTable(pm, take);
      if table == null {
        Whole(0);
        IsLow();
        SamePagesReflexive(view);
        return false;
      }
      GrownIs(Repr, table);
      Join(n, table);
      OwnMore(F, old(pm.free), pm.bmpSize, Table(n), table.frame);
      tables := tables[n := table];
      Repr := Grown(Repr, table);
      F := With(F, Table(n), table.frame);
      view := view[n := table.pte[..]];
      usedPages := usedPages + 1;
      Whole(0);
      return true;
    }

    /** What a new table adds to the bookkeeping. */
    lemma Join(n: nat, table: PageTable)
      requires Objects(tables, Repr) && view == ViewOf(tables, Repr) && Grid(dirs.Keys, tables.Keys)
      requires Accounts(cr3, pl4te, dirs, TabsOf(tables), view, F)
      requires 0 < n < TABLES && DirOf(n) in dirs && n !in tables
      requires table !in Repr && table.pte !in Repr && table.Valid() && Regular(table.pte[..])
      requires |table.pte[..]| == ENTRIES && AllUnused(table.pte[..], 0, ENTRIES) && Blank(table.pte[..])
      ensures Table(n) !in F
      ensures Objects(tables[n := table], Grown(Repr, table))
      ensures view[n := table.pte[..]] == ViewOf(tables[n := table], Grown(Repr, table))
      ensures Grid(dirs.Keys, tables[n := table].Keys) && tables[n := table].Keys == tables.Keys + {n}
      ensures Accounts(cr3, pl4te, dirs, TabsOf(tables[n := table]), view[n := table.pte[..]],
          With(F, Table(n), table.frame))
      ensures SamePages(view, view[n := table.pte[..]])
    {
      hide *;
      OneMoreObject(tables, Repr, n, table);
      OneMoreView(tables, Repr, n, table);
      ViewKeys(tables, Repr);
      EmptyTable(view, n, table.pte[..]);
      AccountTable(cr3, pl4te, dirs, TabsOf(tables), view, F, n, table.pte[..], table.frame);
      GridTable(dirs.Keys, tables.Keys, n);
      KeysMore(tables, n, table);
    }

    lemma TableFacts(n: nat)
      requires Objects(tables, Repr) && n in tables
      ensures tables[n] in Repr && tables[n].pte in Repr && tables[n].Valid()
      ensures n in ViewOf(tables, Repr) && ViewOf(tables, Repr)[n] == tables[n].pte[..]
      ensures Regular(tables[n].pte[..]) && tables[n].pte.Length == ENTRIES
    {
    }

    /** imp_reserve_fixed on one table of the space. */
    method ReserveIn(n: nat, off: nat, size: nat) returns (ok: bool)
      requires Valid() && n in tables && 0 < size && off + size <= ENTRIES
      modifies this`view, Repr
      ensures Valid()
      ensures ok <==> RangeIs(old(view), Page(n, off), size, Free)
      ensures ok ==> RangeBecomes(old(view), view, Page(n, off), size, Reserved)
      ensures !ok ==> view == old(view)
      ensures n in view && view == old(view)[n := view[n]]
    {
      hide *;
      Parts(0);
      TableFacts(n);
      ghost var v := view;
      EntriesUnused(v, n, off, size);
      ok := ReserveObject(tables, Repr, n, off, size);
      if ok {
        ReservedPages(v, n, ViewOf(tables, Repr)[n], off, size);
        AccountReserved(cr3, pl4te, dirs, TabsOf(tables), v, ViewOf(tables, Repr), F, Page(n, off), size);
      } else {
        SameEntry(v, n);
      }
      view := ViewOf(tables, Repr);
      Whole(0);
    }

    /** imp_reserve_any on one table of the space. */
    method ReserveAnyIn(n: nat, size: nat) returns (res: Option<nat>)
      requires Valid() && n in tables && n in view && 0 < size <= ENTRIES
      modifies this`view, Repr
      ensures Valid()
      ensures n in view && OnlyTable(old(view), view, n)
      ensures res.None? <==> Cramped(old(view[n]), size)
      ensures res.None? ==> view == old(view)
      ensures res.Some? ==> res.value + size <= ENTRIES
      ensures res.Some? ==> RangeIs(old(view), Page(n, res.value), size, Free)
      ensures res.Some? ==> EndOfTightest(old(view[n]), res.value, size)
      ensures res.Some? ==> RangeBecomes(old(view), view, Page(n, res.value), size, Reserved)
    {
      hide *;
      Parts(0);
      TableFacts(n);
      ghost var v := view;
      res := ReserveAnyObject(tables, Repr, n, size);
      OnlyOne(v, n, ViewOf(tables, Repr)[n]);
      if res.Some? {
        ReservedFits(v[n], ViewOf(tables, Repr)[n], res.value, size);
        ReservedPages(v, n, ViewOf(tables, Repr)[n], res.value, size);
        AccountReserved(cr3, pl4te, dirs, TabsOf(tables), v, ViewOf(tables, Repr), F, Page(n, res.value), size);
      } else {
        SameEntry(v, n);
      }
      view := ViewOf(tables, Repr);
      Whole(0);
    }

    /** imp_release on one table of the space. */
    method ReleaseIn(n: nat, off: nat, size: nat)
      requires Valid() && n in tables && 0 < size && off + size <= ENTRIES
      requires RangeHeld(view, Page(n, off), size)
      modifies this`usedPages, this`F, this`view, Repr, pm`used, pm`free, pm.bmp
      ensures Valid()
      ensures RangeBecomes(old(view), view, Page(n, off), size, Free)
      ensures F == Without(old(F), LeavesIn(old(F), Page(n, off), size))
      ensures Stock(pm.free, F) == old(Stock(pm.free, F))
      ensures pm.used + old(|F|) == old(pm.used) + |F|
    {
      hide *;
      Parts(0);
      ghost var A := LeavesIn(F, Page(n, off), size);
      var dropped := ReleaseFrames(n, off, size, A);
      F := Without(F, A);
      view := ViewOf(tables, Repr);
      usedPages := usedPages - dropped;
      Whole(0);
    }

    method ReleaseFrames(n: nat, off: nat, size: nat, ghost A: set<Place>) returns (dropped: nat)
      requires this !in Repr && pm !in Repr && pm.bmp !in Repr
      requires Objects(tables, Repr) && pm.Valid()
      requires Accounts(cr3, pl4te, dirs, TabsOf(tables), ViewOf(tables, Repr), F) && Owned(F, pm.free, pm.bmpSize)
      requires |F| <= pm.used && n in tables && 0 < size && off + size <= ENTRIES
      requires RangeHeld(ViewOf(tables, Repr), Page(n, off), size)
      requires A == LeavesIn(F, Page(n, off), size)
      modifies Repr, pm`used, pm`free, pm.bmp
      ensures Objects(tables, Repr) && pm.Valid()
      ensures RangeBecomes(old(ViewOf(tables, Repr)), ViewOf(tables, Repr), Page(n, off), size, Free)
      ensures Accounts(cr3, pl4te, dirs, TabsOf(tables), ViewOf(tables, Repr), Without(F, A))
        && Owned(Without(F, A), pm.free, pm.bmpSize)
      ensures |Without(F, A)| + dropped == |F| && |Without(F, A)| <= pm.used && pm.used == old(pm.used) - dropped
      ensures Stock(pm.free, Without(F, A)) == old(Stock(pm.free, F))
    {
      hide *;
      TableFacts(n);
      ghost var v := ViewOf(tables, Repr);
      HeldEntries(v, n, off, size);
      FramesOfLeaves(cr3, pl4te, dirs, TabsOf(tables), v, F, pm.free, pm.bmpSize, n, off, size);
      OwnLessMany(F, pm.free, pm.bmpSize, A);
      dropped := ReleaseObject(tables, Repr, n, pm, off, size);
      ReleasedPages(v, n, ViewOf(tables, Repr)[n], off, size);
      AccountReleased(cr3, pl4te, dirs, TabsOf(tables), v, ViewOf(tables, Repr), F, Page(n, off), size);
    }

    lemma ViewTable(n: nat)
      requires Objects(tables, Repr) && view == ViewOf(tables, Repr)
      ensures n in view <==> n in tables
    {
    }

    /** safe_release, for a range all of whose pages are held; anything else is
        the source's bugcheck. */
    method SafeRelease(base: nat, pageCount: nat)
      requires Valid() && RangeHeld(view, base, pageCount)
      modifies this`usedPages, this`F, this`view, Repr, pm`used, pm`free, pm.bmp
      ensures Valid()
      ensures RangeBecomes(old(view), view, base, pageCount, Free)
      ensures F == Without(old(F), LeavesIn(old(F), base, pageCount))
      ensures Stock(pm.free, F) == old(Stock(pm.free, F))
      ensures pm.used + old(|F|) == old(pm.used) + |F|
    {
      hide *;
      var n, addr, count := TableOf(base), base, 0;
      BecomesNone(view, base, Free);
      LeavesNone(F, base);
      Parts(0);
      while count < pageCount
        invariant Valid() && addr == base + count && count <= pageCount
        invariant count < pageCount ==> n == TableOf(addr)
        invariant this !in Repr && pm !in Repr && pm.bmp !in Repr
        invariant RangeBecomes(old(view), view, base, count, Free)
        invariant F == Without(old(F), LeavesIn(old(F), base, count))
        invariant Stock(pm.free, F) == old(Stock(pm.free, F))
        invariant pm.used + old(|F|) == old(pm.used) + |F|
      {
        Locate(addr, pageCount - count);
        var off, size := EntryOf(addr), Chunk(addr, pageCount - count);
        StillHeld(old(view), view, base, pageCount, count, size);
        ghost var w := view;
        ReleaseStep(n, off, size);
        BecomesMore(old(view), w, view, base, count, size, Free);
        LeavesMore(old(F), base, count, size);
        addr := addr + size;
        count := count + size;
        n := n + 1;
      }
    }

    /** One round of safe_release. */
    method ReleaseStep(n: nat, off: nat, size: nat)
      requires Valid() && 0 < size && off + size <= ENTRIES && RangeHeld(view, Page(n, off), size)
      modifies this`usedPages, this`F, this`view, Repr, pm`used, pm`free, pm.bmp
      ensures Valid() && this !in Repr && pm !in Repr && pm.bmp !in Repr
      ensures RangeBecomes(old(view), view, Page(n, off), size, Free)
      ensures F == Without(old(F), LeavesIn(old(F), Page(n, off), size))
      ensures Stock(pm.free, F) == old(Stock(pm.free, F))
      ensures pm.used + old(|F|) == old(pm.used) + |F|
    {
      hide *;
      HeldTable(view, n, off, size);
      Parts(0);
      ViewTable(n);
      ReleaseIn(n, off, size);
    }

    /** Makes the directory and the table n if they are missing. */
    method EnsureTable(n: nat) returns (ok: bool)
      requires Valid() && n < TABLES
      modifies this, pm`used, pm`reserved, pm`next, pm`free, pm.bmp
      ensures Valid() && fresh(Repr - old(Repr))
      ensures ok <==> n in tables
      ensures SamePages(old(view), view)
      ensures !ok ==> n == 0 || (LowMemory() && n !in old(view))
      ensures Stock(pm.free, F) == old(Stock(pm.free, F)) && pm.reserved == old(pm.reserved)
    {
      hide *;
      Parts(0);
      ViewTable(n);
      NoTableZero(dirs.Keys, tables.Keys);
      SamePagesReflexive(view);
      DirBound(n);
      if DirOf(n) !in dirs {
        GridDirectory(dirs.Keys, tables.Keys, n);
        ok := NewDirectory(DirOf(n));
        if !ok {
          return;
        }
      }
      if n == 0 {
        return false;
      }
      if n !in tables {
        ok := NewTable(n, false);
        return;
      }
      return true;
    }

    /** One round of reserve_fixed. */
    method ReserveStep(n: nat, off: nat, size: nat) returns (ok: bool)
      requires Valid() && n < TABLES && 0 < size && off + size <= ENTRIES
      modifies this, Repr, pm`used, pm`reserved, pm`next, pm`free, pm.bmp
      ensures Valid() && fresh(Repr - old(Repr))
      ensures ok ==> 0 < n && RangeIs(old(view), Page(n, off), size, Free)
      ensures ok ==> RangeBecomes(old(view), view, Page(n, off), size, Reserved)
      ensures !ok ==> SamePages(old(view), view)
      ensures !ok ==>
        n == 0 || !RangeIs(old(view), Page(n, off), size, Free) || (LowMemory() && n !in old(view))
      ensures Stock(pm.free, F) == old(Stock(pm.free, F)) && pm.reserved == old(pm.reserved)
    {
      hide *;
      Parts(0);
      ghost var v := view;
      ok := EnsureTable(n);
      if !ok {
        return;
      }
      Parts(0);
      NoTableZero(dirs.Keys, tables.Keys);
      ghost var w := view;
      SameRange(v, w, Page(n, off), size);
      ok := ReserveIn(n, off, size);
      Parts(0);
      SameThenBecomes(v, w, view, Page(n, off), size, Reserved);
    }

    /** One table of the search of reserve_any.  place is where pages were found. */
    method ReserveAnyStep(d: nat, i: nat, pageCount: nat) returns (res: nat, ghost place: Option<nat>)
      requires Valid() && 0 < pageCount <= ENTRIES && d < SLOTS && i < SLOTS && d in dirs
      modifies this`tables, this`usedPages, this`F, this`Repr, this`view, Repr, pm`used, pm`reserved, pm`next, pm`free,
          pm.bmp
      ensures Valid() && fresh(Repr - old(Repr)) && pm.used >= old(pm.used)
      ensures res == if place.Some? then Told(place.value) else 0
      ensures place.Some? ==>
        TableAt(d, i) > 0 && TableOf(place.value) == TableAt(d, i) && !Refusable(old(view), place.value, pageCount)
      ensures place.Some? ==> RangeBecomes(old(view), view, place.value, pageCount, Reserved)
      ensures place.Some? ==> TableAt(d, i) in view
      ensures place.Some? && TableAt(d, i) in old(view) ==> !Cramped(old(view)[TableAt(d, i)], pageCount)
      ensures place.None? ==> SamePages(old(view), view)
      ensures place.None? && !LowMemory() && TableAt(d, i) > 0 ==>
        TableAt(d, i) in old(view) && TableAt(d, i) in view
        && Cramped(view[TableAt(d, i)], pageCount) && Cramped(old(view)[TableAt(d, i)], pageCount)
      ensures place.Some? ==> AnyBase(old(view), place.value, pageCount)
      ensures place.Some? && TableAt(d, i) !in old(view) ==> !old(LowMemory())
      ensures place.None? && TableAt(d, i) > 0 ==>
        if TableAt(d, i) in old(view) then Cramped(old(view)[TableAt(d, i)], pageCount) else LowMemory()
      ensures OnlyTable(old(view), view, TableAt(d, i)) && dirs == old(dirs)
      ensures Stock(pm.free, F) == old(Stock(pm.free, F)) && pm.reserved == old(pm.reserved)
    {
      hide *;
      var n := TableAt(d, i);
      TableAtBounds(d, i);
      SamePagesReflexive(view);
      Parts(0);
      LowIs();
      OnlySelf(view, n);
      if n == 0 {
        return 0, None;
      }
      var ok := TableForSearch(n);
      if !ok {
        return 0, None;
      }
      ghost var w := view;
      if n !in old(view) {
        FreshHasRoom(w[n], pageCount);
      }
      var idx := ReserveAnyIn(n, pageCount);
      OnlyTwice(old(view), w, view, n);
      Parts(0);
      LowIs();
      if idx.None? {
        return 0, None;
      }
      SameRange(old(view), w, Page(n, idx.value), pageCount);
      SameThenBecomes(old(view), w, view, Page(n, idx.value), pageCount, Reserved);
      TableInSpace(old(view), n, idx.value, pageCount);
      EntryInTable(n, idx.value, pageCount);
      AnyBaseIs(old(view), w, n, idx.value, pageCount);
      ToldIs(n, idx.value);
      return Base32(n) + idx.value, Some(Page(n, idx.value));
    }

    /** Makes table n if it is missing, which does not disturb the search. */
    method TableForSearch(n: nat) returns (ok: bool)
      requires Valid() && 0 < n < TABLES && DirOf(n) in dirs
      modifies this`tables, this`usedPages, this`F, this`Repr, this`view, pm`used, pm`reserved, pm`next, pm`free, pm.bmp
      ensures Valid() && fresh(Repr - old(Repr)) && SamePages(old(view), view) && pm.used >= old(pm.used)
      ensures if ok then n in tables && n in view else LowMemory() && view == old(view) && n !in old(view)
      ensures ok && n !in old(view) ==> !old(LowMemory())
      ensures ok && n in old(view) ==> view == old(view)
      ensures ok && n !in old(view) ==> |view[n]| == ENTRIES && AllUnused(view[n], 0, ENTRIES)
      ensures this !in Repr && pm !in Repr && pm.bmp !in Repr
      ensures OnlyTable(old(view), view, n)
      ensures Stock(pm.free, F) == old(Stock(pm.free, F)) && pm.reserved == old(pm.reserved)
    {
      hide *;
      Parts(0);
      ViewTable(n);
      SamePagesReflexive(view);
      OnlySelf(view, n);
      LowIs();
      ok := true;
      if n !in tables {
        ok := NewTable(n, false);
        LowIs();
        Parts(0);
        ViewTable(n);
        if ok {
          OnlyOne(old(view), n, tables[n].pte[..]);
          WholeIsUnused(n);
        }
      }
    }

    /** A table whose field says that all of it is free is unused. */
    lemma WholeIsUnused(n: nat)
      requires Valid() && n in tables && n in view && tables[n].GetMaxSize() == ENTRIES
      ensures |view[n]| == ENTRIES && AllUnused(view[n], 0, ENTRIES)
    {
      tables[n].FieldIsExactAtEnds();
    }

    /** The search for pages anywhere came to the end, or to a directory that is
        missing and cannot be made, and no table before could serve. */
    ghost predicate PassedUpTo(v: View, d: nat, pageCount: nat, lost: set<nat>)
      reads this, pm
    {
      d <= SLOTS && Passed(v, TableAt(d, 0), pageCount, lost, LowMemory()) && (d < SLOTS ==> d !in dirs && LowMemory())
    }

    lemma PassedUpToIs(v: View, d: nat, pageCount: nat, lost: set<nat>)
      requires d <= SLOTS && Passed(v, TableAt(d, 0), pageCount, lost, LowMemory())
      requires d < SLOTS ==> d !in dirs && LowMemory()
      ensures PassedUpTo(v, d, pageCount, lost)
    {
    }

    /** reserve_any: looks for room in one table after the other, and takes the
        address 0 for a failure.  Pages found at such an address stay reserved
        while the search goes on; they are lost. */
    method ReserveAny(pageCount: nat) returns (res: nat, ghost place: Option<nat>, ghost lost: set<nat>)
      requires Valid() && 0 < pageCount <= ENTRIES
      modifies this, Repr, pm`used, pm`reserved, pm`next, pm`free, pm.bmp
      ensures Valid() && fresh(Repr - old(Repr))
      ensures res == if place.Some? then Told(place.value) else 0
      ensures place.Some? <==> res != 0
      ensures RangesBecome(old(view), view, lost + Spot(place), pageCount)
        && AllWereFree(old(view), lost + Spot(place), pageCount)
      ensures AllUntold(lost)
      // the answer is right exactly if there was room below 4 GB
      ensures place.Some? && SearchedBelow(old(view), LOW, pageCount) ==> res != place.value
      ensures place.Some? && !LowMemory() && !SearchedBelow(old(view), LOW, pageCount) ==>
        res == place.value && lost == {}
      ensures place.Some? && place.value < WRAP ==> res == place.value && lost == {}
      ensures place.None? ==> LowMemory() || SearchedBut(view, TABLES, pageCount, lost)
      // the first table that can serve does, up to the first directory that cannot be made
      ensures place.Some? ==>
        AnyBase(old(view), place.value, pageCount)
          && Passed(old(view), TableOf(place.value), pageCount, lost, LowMemory() && TableOf(place.value) in old(view))
      ensures place.None? ==> exists d: nat :: PassedUpTo(old(view), d, pageCount, lost)
      ensures Stock(pm.free, F) == old(Stock(pm.free, F)) && pm.reserved == old(pm.reserved)
    {
      hide *;
      res, place, lost := 0, None, {};
      RangesNone(view, pageCount);
      NextDirectory(0);
      StartSearching(view, pageCount, LowMemory());
      for d := 0 to SLOTS
        invariant Valid() && fresh(Repr - old(Repr)) && res == 0 && place == None
        invariant Searching(old(view), view, TableAt(d, 0), pageCount, lost, LowMemory())
        invariant Stock(pm.free, F) == old(Stock(pm.free, F)) && pm.reserved == old(pm.reserved)
      {
        LowIs();
        if d !in dirs {
          var ok := NewDirectory(d);
          LowIs();
          StillSearching(old(view), view, TableAt(d, 0), pageCount, lost, LowMemory());
          if !ok {
            SearchEnds(old(view), view, TableAt(d, 0), pageCount, lost, LowMemory());
            PassedUpToIs(old(view), d, pageCount, lost);
            return;
          }
        }
        res, place, lost := SearchDirectory(d, pageCount, old(view), lost);
        LowIs();
        if res != 0 {
          FoundFacts(old(view), view, lost, place.value, pageCount, LowMemory());
          return;
        }
        NextDirectory(d);
      }
      SearchEnds(old(view), view, TABLES, pageCount, lost, LowMemory());
      NextDirectory(0);
      PassedUpToIs(old(view), SLOTS, pageCount, lost);
    }

    /** The inner loop of that search, over the tables of directory d. */
    method SearchDirectory(d: nat, pageCount: nat, ghost v: View, ghost before: set<nat>)
      returns (res: nat, ghost place: Option<nat>, ghost lost: set<nat>)
      requires Valid() && 0 < pageCount <= ENTRIES && d < SLOTS && d in dirs
      requires Searching(v, view, TableAt(d, 0), pageCount, before, LowMemory())
      modifies this`tables, this`usedPages, this`F, this`Repr, this`view, Repr, pm`used, pm`reserved, pm`next, pm`free,
        pm.bmp
      ensures Valid() && fresh(Repr - old(Repr))
      ensures res == if place.Some? then Told(place.value) else 0
      ensures if res == 0 then place == None && Searching(v, view, TableAt(d, SLOTS), pageCount, lost, LowMemory())
        else place.Some? && Found(v, view, lost, place.value, pageCount, LowMemory())
      ensures Stock(pm.free, F) == old(Stock(pm.free, F)) && pm.reserved == old(pm.reserved)
    {
      hide *;
      res, place, lost := 0, None, before;
      for i := 0 to SLOTS
        invariant Valid() && fresh(Repr - old(Repr)) && d in dirs && res == 0 && place == None
        invariant Searching(v, view, TableAt(d, i), pageCount, lost, LowMemory())
        invariant Stock(pm.free, F) == old(Stock(pm.free, F)) && pm.reserved == old(pm.reserved)
      {
        Parts(0);
        res, place, lost := SearchTable(d, i, pageCount, v, lost);
        if res != 0 {
          return;
        }
      }
    }

    /** One round of the search: found, or lost, or on to the next table. */
    method SearchTable(d: nat, i: nat, pageCount: nat, ghost v: View, ghost before: set<nat>)
      returns (res: nat, ghost place: Option<nat>, ghost lost: set<nat>)
      requires Valid() && 0 < pageCount <= ENTRIES && d < SLOTS && i < SLOTS && d in dirs
      requires Searching(v, view, TableAt(d, i), pageCount, before, LowMemory())
      modifies this`tables, this`usedPages, this`F, this`Repr, this`view, Repr, pm`used, pm`reserved, pm`next, pm`free,
        pm.bmp
      ensures Valid() && fresh(Repr - old(Repr))
      ensures res == if place.Some? then Told(place.value) else 0
      ensures if res == 0 then place == None && Searching(v, view, TableAt(d, i + 1), pageCount, lost, LowMemory())
        else place.Some? && Found(v, view, lost, place.value, pageCount, LowMemory())
      ensures Stock(pm.free, F) == old(Stock(pm.free, F)) && pm.reserved == old(pm.reserved)
    {
      hide *;
      lost := before;
      ghost var w := view;
      Parts(0);
      LowIs();
      ghost var was := LowMemory();
      res, place := ReserveAnyStep(d, i, pageCount);
      LowIs();
      TableAtBounds(d, i);
      if res != 0 {
        SearchFound(v, w, view, TableAt(d, i), pageCount, lost, was, LowMemory(), place.value);
        return;
      }
      if place.None? {
        SearchMissed(v, w, view, TableAt(d, i), pageCount, lost, was, LowMemory());
      } else {
        SearchLost(v, w, view, TableAt(d, i), pageCount, lost, was, LowMemory(), place.value);
        lost := lost + {place.value};
        place := None;
      }
    }

    /** The scan of reserve_big: a stretch of `aligned` tables of directory d
        that can be handed out whole, and how many of them have to be made. */
    method ScanDirectory(d: nat, aligned: nat) returns (base: nat, pages: nat, reserveCount: nat)
      requires Valid() && d < SLOTS && 0 < aligned
      ensures pages <= aligned && base + pages <= SLOTS
      ensures VacantRange(view, TableAt(d, base), pages)
      ensures reserveCount == Absent(tables.Keys, TableAt(d, base), pages)
      ensures if pages < aligned then NoRoom(view, d, aligned, SLOTS) else NoRoom(view, d, aligned, base + aligned - 1)
    {
      hide *;
      base, pages, reserveCount := 0, 0, 0;
      VacantNone(view, TableAt(d, 0));
      AbsentNone(tables.Keys, TableAt(d, 0));
      NoRoomStart(view, d, aligned);
      Parts(0);
      var i := 0;
      while i < SLOTS
        invariant i <= SLOTS && pages < aligned && base + pages == i
        invariant VacantRange(view, TableAt(d, base), pages)
        invariant reserveCount == Absent(tables.Keys, TableAt(d, base), pages)
        invariant base > 0 ==> !Vacant(view, TableAt(d, base - 1))
        invariant NoRoom(view, d, aligned, i)
      {
        var n := TableAt(d, i);
        ShiftTable(d, base, pages);
        TableVacancy(n);
        if n == 0 || (n in tables && tables[n].GetMaxSize() != ENTRIES) {
          NoRoomMore(view, d, aligned, i, i);
          base := i + 1;
          pages := 0;
          reserveCount := 0;
          VacantNone(view, TableAt(d, base));
          AbsentNone(tables.Keys, TableAt(d, base));
        } else {
          VacantMore(view, TableAt(d, base), pages);
          AbsentMore(tables.Keys, TableAt(d, base), pages);
          if n !in tables {
            reserveCount := reserveCount + 1;
          }
          pages := pages + 1;
          if pages == aligned {
            return;
          }
          if base > 0 {
            NoRoomMore(view, d, aligned, i, base - 1);
          } else {
            NoRoomEarly(view, d, aligned, i);
          }
        }
        i := i + 1;
      }
    }

    lemma TableVacancy(n: nat)
      requires Objects(tables, Repr) && view == ViewOf(tables, Repr)
      ensures Vacant(view, n) <==> n != 0 && (n in tables ==> tables[n].GetMaxSize() == ENTRIES)
    {
      if n in tables {
        TableFacts(n);
        tables[n].FieldIsExactAtEnds();
      }
    }

    /** One table of a big reservation. */
    method FillStep(n: nat, size: nat)
      requires Valid() && Vacant(view, n) && 0 < n < TABLES && DirOf(n) in dirs && 0 < size <= ENTRIES
      requires n !in tables ==> pm.reserved > 0
      modifies this`tables, this`usedPages, this`F, this`Repr, this`view, Repr, pm`used, pm`reserved, pm`next, pm`free,
          pm.bmp
      ensures Valid() && fresh(Repr - old(Repr)) && dirs == old(dirs)
      ensures RangeBecomes(old(view), view, Page(n, 0), size, Reserved)
      ensures tables.Keys == old(tables.Keys) + {n} && n in view && view == old(view)[n := view[n]]
      ensures pm.reserved == old(pm.reserved) - (if n in old(tables) then 0 else 1)
      ensures Stock(pm.free, F) == old(Stock(pm.free, F))
    {
      hide *;
      VacantPages(view, n, size);
      TakeTable(n);
      ghost var w := view;
      SameRange(old(view), w, Page(n, 0), size);
      // the source's bugcheck on failure is not reachable
      var ok := ReserveIn(n, 0, size);
      assert ok;
      SameThenBecomes(old(view), w, view, Page(n, 0), size, Reserved);
      ViewTwice(old(view), w, view, n);
    }

    /** No frame is mapped by two pages, none is also a table or a directory,
        and none is free. */
    lemma FramesAreExclusive(p: nat, q: nat)
      requires Valid() && StateAt(view, p).Committed?
      ensures StateAt(view, p).frame !in pm.free
      ensures StateAt(view, q).Committed? && p != q ==> StateAt(view, p).frame != StateAt(view, q).frame
      ensures forall n :: n in tables ==> tables[n].frame != StateAt(view, p).frame
      ensures forall d :: d in dirs ==> dirs[d] != StateAt(view, p).frame
      ensures StateAt(view, p).frame != cr3 && StateAt(view, p).frame != pl4te
    {
      assert Leaf(p) in F;
      assert Leaf(q) in F <==> StateAt(view, q).Committed?;
      forall n | n in tables ensures tables[n].frame != StateAt(view, p).frame {
        TabOf(n);
        assert Table(n) in F;
      }
      forall d | d in dirs ensures dirs[d] != StateAt(view, p).frame {
        assert Directory(d) in F;
      }
    }

    /** used_pages counts the two top tables, the directories, the page tables
        and the committed pages. */
    lemma UsedPagesIsCensus()
      requires Valid()
      ensures usedPages == 2 + |dirs| + |tables| + |CommittedPages(view)|
    {
      hide Accounts, Owned, Regular, PM.Valid, PageTable.Valid;
      ViewKeys(tables, Repr);
      CensusOf(cr3, pl4te, dirs, TabsOf(tables), view, F);
      assert |TabsOf(tables)| == |TabsOf(tables).Keys| && |tables| == |tables.Keys|;
    }

    /** Makes table n out of the reserved frames if it is missing. */
    method TakeTable(n: nat)
      requires Valid() && 0 < n < TABLES && DirOf(n) in dirs
      requires n !in tables ==> pm.reserved > 0
      modifies this`tables, this`usedPages, this`F, this`Repr, this`view, pm`used, pm`reserved, pm`next, pm`free, pm.bmp
      ensures Valid() && fresh(Repr - old(Repr)) && this !in Repr && pm !in Repr && pm.bmp !in Repr
      ensures SamePages(old(view), view)
      ensures tables.Keys == old(tables.Keys) + {n} && n in tables
      ensures view == old(view) || (n in view && view == old(view)[n := view[n]])
      ensures pm.reserved == old(pm.reserved) - (if n in old(tables) then 0 else 1)
      ensures Stock(pm.free, F) == old(Stock(pm.free, F))
    {
      hide *;
      if n !in tables {
        var made := NewTable(n, true);
      } else {
        SamePagesReflexive(view);
        AddPresent(tables.Keys, n);
      }
      Parts(0);
    }

    /** The second loop of reserve_big. */
    method FillTables(first: nat, num: nat, pageCount: nat)
      requires Valid() && 0 < first && first + num <= TABLES && Needs(pageCount, num)
      requires VacantRange(view, first, num) && pm.reserved >= Absent(tables.Keys, first, num)
      requires forall n :: first <= n < first + num ==> DirOf(n) in dirs
      modifies this`tables, this`usedPages, this`F, this`Repr, this`view, Repr, pm`used, pm`reserved, pm`next, pm`free,
          pm.bmp
      ensures Valid() && fresh(Repr - old(Repr))
      ensures RangeBecomes(old(view), view, Page(first, 0), pageCount, Reserved)
      ensures pm.reserved == old(pm.reserved) - Absent(old(tables.Keys), first, num)
      ensures Stock(pm.free, F) == old(Stock(pm.free, F))
    {
      hide *;
      DoneEnds(num, pageCount);
      BecomesNone(view, Page(first, 0), Reserved);
      var left, i := pageCount, 0;
      while i < num
        invariant i <= num && left == pageCount - Done(i, pageCount)
        invariant Valid() && fresh(Repr - old(Repr)) && dirs == old(dirs)
        invariant VacantRange(view, first + i, num - i)
        invariant RangeBecomes(old(view), view, Page(first, 0), Done(i, pageCount), Reserved)
        invariant pm.reserved - Absent(tables.Keys, first + i, num - i) ==
          old(pm.reserved) - Absent(old(tables.Keys), first, num)
        invariant Stock(pm.free, F) == old(Stock(pm.free, F))
      {
        DoneStep(first, i, num, pageCount);
        AbsentStep(tables.Keys, first + i, num - i);
        FirstVacant(view, first + i, num - i);
        ghost var w := view;
        var size := if ENTRIES < left then ENTRIES else left;
        FillStep(first + i, size);
        VacantAfter(w, view, first + i, num - i);
        BecomesMore(old(view), w, view, Page(first, 0), Done(i, pageCount), size, Reserved);
        left := left - size;
        i := i + 1;
      }
      AbsentNone(tables.Keys, first + num);
    }

    method ReserveFrames(count: nat) returns (ok: bool)
      requires Valid()
      modifies pm`reserved
      ensures Valid()
      ensures ok <==> !old(Short(count, pm.reserved))
      ensures pm.reserved == old(pm.reserved) + (if ok then count else 0)
    {
      hide *;
      Parts(0);
      ShortIs(count, pm.reserved);
      ok := pm.Reserve(count);
      Whole(0);
    }

    /** Memory is too short to set `count` more frames aside. */
    ghost predicate Short(count: nat, reserved: nat)
      reads pm
    {
      pm.used + reserved + count + pm.hardLimit >= pm.total
    }

    lemma ShortIs(count: nat, reserved: nat)
      ensures Short(count, reserved) <==> pm.used + reserved + count + pm.hardLimit >= pm.total
    {
    }

    /** reserve_big: whole tables next to each other in one directory.  The
        address it tells is right exactly if they lie below 4 GB. */
    method ReserveBig(pageCount: nat) returns (res: nat, ghost place: Option<nat>)
      requires Valid() && 0 < pageCount
      modifies this, Repr, pm`used, pm`reserved, pm`next, pm`free, pm.bmp
      ensures Valid() && fresh(Repr - old(Repr))
      ensures res == if place.Some? then Told(place.value) else 0
      ensures place.Some? ==> (res == place.value <==> TableOf(place.value) < LOW)
      ensures place.Some? ==> !Refusable(old(view), place.value, pageCount)
      ensures place.Some? ==> RangeBecomes(old(view), view, place.value, pageCount, Reserved)
      ensures place.Some? ==> BigBase(old(view), place.value, pageCount)
      ensures place.None? ==> view == old(view)
      // in the first directory that can serve
      ensures place.Some? ==> BigPassed(old(view), old(dirs.Keys), DirOf(TableOf(place.value)), AlignUp(pageCount),
          old(Room()))
      ensures place.None? ==> BigEnded(old(view), old(dirs.Keys), AlignUp(pageCount), old(Room()))
      ensures Stock(pm.free, F) == old(Stock(pm.free, F)) && pm.reserved == old(pm.reserved)
    {
      hide *;
      var aligned := AlignUp(pageCount);
      AlignedNeeds(pageCount);
      ghost var present, room := dirs.Keys, Room();
      BigStarts(view, present, aligned, room);
      for d := 0 to SLOTS
        invariant Valid() && fresh(Repr - old(Repr)) && view == old(view)
        invariant Stock(pm.free, F) == old(Stock(pm.free, F)) && pm.reserved == old(pm.reserved)
        invariant SameFrom(present, dirs.Keys, d) && Room() == room - Absent(present, 0, d)
        invariant BigPassed(view, present, d, aligned, room)
      {
        AbsentMore(present, 0, d);
        ghost var now := dirs.Keys;
        RoomIs();
        LowIs();
        if d !in dirs {
          var ok := NewDirectory(d);
          RoomIs();
          SameFromNext(present, now, dirs.Keys, d);
          if !ok {
            BigEnds(view, present, d, aligned, room);
            return 0, None;
          }
        }
        SameFromNext(present, now, dirs.Keys, d);
        RoomIs();
        var base, pages, reserveCount := ScanDirectory(d, aligned);
        if pages == aligned {
          TableKeys();
          StretchIs(view, d, base, aligned);
          ShortIs(reserveCount, pm.reserved);
          var ok := ReserveFrames(reserveCount);
          if ok {
            BigFits(view, d, base, aligned, pageCount);
            FillTables(TableAt(d, base), aligned, pageCount);
            ToldIs(TableAt(d, base), 0);
            EntryInTable(TableAt(d, base), 0, 1);
            BaseInDirectory(d, base, aligned);
            return Base32(TableAt(d, base)), Some(Page(TableAt(d, base), 0));
          }
        }
        BigNext(view, present, d, aligned, room, base);
      }
      BigEnds(view, present, SLOTS, aligned, room);
      return 0, None;
    }

    /** The frames that an ordinary request may still take. */
    ghost function Room(): int
      reads pm
    {
      pm.total - pm.hardLimit - pm.used - pm.reserved
    }

    lemma RoomIs()
      ensures Room() == pm.total - pm.hardLimit - pm.used - pm.reserved
    {
    }

    lemma TableKeys()
      requires Valid()
      ensures tables.Keys == view.Keys
    {
      ViewKeys(tables, Repr);
    }

    /** reserve_fixed: all of the pages or none, whatever tables they span. */
    method ReserveFixed(base: nat, pageCount: nat) returns (ok: bool)
      requires Valid() && 0 < pageCount
      modifies this, Repr, pm`used, pm`reserved, pm`next, pm`free, pm.bmp
      ensures Valid() && fresh(Repr - old(Repr))
      ensures ok ==> RangeBecomes(old(view), view, base, pageCount, Reserved)
      ensures ok ==> !Refusable(old(view), base, pageCount)
      ensures !ok ==> SamePages(old(view), view)
      ensures !ok ==> Refusable(old(view), base, pageCount) || (LowMemory() && Lacking(old(view), base, pageCount))
      ensures Stock(pm.free, F) == old(Stock(pm.free, F)) && pm.reserved == old(pm.reserved)
    {
      hide *;
      var count := ReserveRounds(base, pageCount);
      if count == pageCount {
        return true;
      }
      if count > 0 {
        Parts(0);
        ghost var w := view;
        ReservedIsHeld(old(view), w, base, count);
        ReservedHasNoLeaf(cr3, pl4te, dirs, TabsOf(tables), old(view), w, F, base, count);
        LowIs();
        SafeRelease(base, count);
        LowIs();
        RolledBack(old(view), w, view, base, count);
      } else {
        BecomesNothing(old(view), view, base, Reserved);
      }
      return false;
    }

    /** The loop of reserve_fixed: reserves table by table until something is in the way. */
    method ReserveRounds(base: nat, pageCount: nat) returns (count: nat)
      requires Valid() && 0 < pageCount
      modifies this, Repr, pm`used, pm`reserved, pm`next, pm`free, pm.bmp
      ensures Valid() && fresh(Repr - old(Repr))
      ensures count <= pageCount && RangeIs(old(view), base, count, Free)
      ensures RangeBecomes(old(view), view, base, count, Reserved)
      ensures count == pageCount ==> !Refusable(old(view), base, pageCount)
      ensures count < pageCount ==>
        Refusable(old(view), base, pageCount) || (LowMemory() && Lacking(old(view), base, pageCount))
      ensures Stock(pm.free, F) == old(Stock(pm.free, F)) && pm.reserved == old(pm.reserved)
    {
      hide *;
      var n, addr := TableOf(base), base;
      count := 0;
      BecomesNone(view, base, Reserved);
      FreeNone(view, base);
      while count < pageCount && n < TABLES
        invariant Valid() && fresh(Repr - old(Repr))
        invariant addr == base + count && count <= pageCount
        invariant count < pageCount ==> n == TableOf(addr)
        invariant count > 0 ==> ENTRIES <= base && base + count <= PAGES
        invariant RangeIs(old(view), base, count, Free)
        invariant RangeBecomes(old(view), view, base, count, Reserved)
        invariant Stock(pm.free, F) == old(Stock(pm.free, F)) && pm.reserved == old(pm.reserved)
      {
        Locate(addr, pageCount - count);
        var off, size := EntryOf(addr), Chunk(addr, pageCount - count);
        ghost var w := view;
        var ok := ReserveStep(n, off, size);
        if !ok {
          BecomesThenSame(old(view), w, view, base, count, Reserved);
          StoppedOr(old(view), w, base, pageCount, count, n, off, size);
          LackingIs(old(view), w, base, pageCount, count);
          return;
        }
        FreeMore(old(view), w, base, count, size);
        BecomesMore(old(view), w, view, base, count, size, Reserved);
        InSpace(addr, size);
        addr := addr + size;
        count := count + size;
        n := n + 1;
      }
      if count < pageCount {
        Locate(addr, pageCount - count);
        StoppedOr(old(view), view, base, pageCount, count, n, EntryOf(addr), Chunk(addr, pageCount - count));
      } else {
        IsNotRefusable(old(view), base, pageCount);
      }
    }

    lemma LowIs()
      ensures LowMemory() <==> pm.used + pm.reserved + pm.hardLimit >= pm.total
    {
    }

    lemma ViewIsRegular()
      requires Objects(tables, Repr) && view == ViewOf(tables, Repr)
      ensures RegularView(view)
    {
    }

    /** imp_iterate, with a callback that only looks: how many pages of the
        range pass before one is missing or does not. */
    method Iterate(base: nat, pageCount: nat, pred: Pte -> bool) returns (count: nat)
      requires Valid() && 0 < pageCount
      ensures count <= pageCount && AllPass(view, base, count, pred)
      ensures count < pageCount ==> !Passes(view, base + count, pred)
    {
      hide *;
      Parts(0);
      var n, addr := TableOf(base), base;
      count := 0;
      PassNone(view, base, pred);
      while count < pageCount
        invariant count <= pageCount && AllPass(view, base, count, pred)
        invariant addr == base + count && (count < pageCount ==> n == TableOf(addr))
      {
        Locate(addr, pageCount - count);
        var off, size := EntryOf(addr), Chunk(addr, pageCount - count);
        PassesAt(view, n, off, pred);
        ViewTable(n);
        if n == 0 || n !in tables {
          NoTableZero(dirs.Keys, tables.Keys);
          return;
        }
        var passed := IterateTable(n, off, size, pred);
        PassBoth(view, base, count, passed, pred);
        addr := addr + passed;
        count := count + passed;
        if passed < size {
          return;
        }
        n := n + 1;
      }
    }

    /** The inner loop of imp_iterate, over the entries of one table. */
    method IterateTable(n: nat, first: nat, size: nat, pred: Pte -> bool) returns (passed: nat)
      requires Valid() && n in tables && first + size <= ENTRIES
      ensures passed <= size && AllPass(view, Page(n, first), passed, pred)
      ensures passed < size ==> !Passes(view, Page(n, first) + passed, pred)
    {
      hide *;
      Parts(0);
      TableFacts(n);
      passed := 0;
      PassNone(view, Page(n, first), pred);
      while passed < size
        invariant passed <= size && AllPass(view, Page(n, first), passed, pred)
      {
        PassesAt(view, n, first + passed, pred);
        PageShift(n, first, passed);
        if !pred(tables[n].pte[first + passed]) {
          return;
        }
        PassMore(view, Page(n, first), passed, pred);
        passed := passed + 1;
      }
    }

    /** user_vspace::release: the whole range or nothing. */
    method Release(base: nat, pageCount: nat) returns (ok: bool)
      requires Valid()
      modifies this`usedPages, this`F, this`view, Repr, pm`used, pm`free, pm.bmp
      ensures Valid()
      ensures ok <==> 0 < base && 0 < pageCount && base + pageCount <= PAGES && RangeHeld(old(view), base, pageCount)
      ensures ok ==> RangeBecomes(old(view), view, base, pageCount, Free)
      ensures ok ==> F == Without(old(F), LeavesIn(old(F), base, pageCount))
      ensures !ok ==> view == old(view) && F == old(F) && usedPages == old(usedPages) && pm.free == old(pm.free)
      ensures Stock(pm.free, F) == old(Stock(pm.free, F))
    {
      hide *;
      CheckIs(base, pageCount);
      if !CommonCheck(base, pageCount) {
        return false;
      }
      Parts(0);
      ViewIsRegular();
      var res := Iterate(base, pageCount, Releasable);
      ReleasableRange(view, base, pageCount, res);
      if res != pageCount {
        return false;
      }
      SafeRelease(base, pageCount);
      return true;
    }

    /** user_vspace::commit: the whole range or nothing, because the frames are
        reserved before the first one is taken. */
    method Commit(base: nat, pageCount: nat) returns (ok: bool)
      requires Valid()
      modifies this`usedPages, this`F, this`view, Repr, pm`used, pm`reserved, pm`next, pm`free, pm.bmp
      ensures Valid()
      ensures ok <==>
        0 < base && 0 < pageCount && base + pageCount <= PAGES && RangeIs(old(view), base, pageCount, Reserved)
                      && !old(Short(pageCount, pm.reserved))
      ensures ok ==> RangeCommitted(old(view), view, base, pageCount)
      ensures ok ==> usedPages == old(usedPages) + pageCount
      ensures !ok ==> view == old(view) && F == old(F) && usedPages == old(usedPages) && pm.free == old(pm.free)
      ensures pm.reserved == old(pm.reserved)
      ensures Stock(pm.free, F) == old(Stock(pm.free, F))
    {
      hide *;
      CheckIs(base, pageCount);
      if !CommonCheck(base, pageCount) {
        return false;
      }
      Parts(0);
      ViewIsRegular();
      var res := Iterate(base, pageCount, Committable);
      CommittableRange(view, base, pageCount, res);
      if res != pageCount {
        return false;
      }
      ok := ReserveFrames(pageCount);
      if !ok {
        return;
      }
      CommitRange(base, pageCount);
      Parts(pageCount);
      usedPages := usedPages + pageCount;
      Whole(0);
    }

    lemma CheckIs(base: nat, pageCount: nat)
      ensures CommonCheck(base, pageCount) <==> 0 < base && 0 < pageCount && base + pageCount <= PAGES
    {
    }

    /** The second pass of commit. */
    method CommitRange(base: nat, pageCount: nat)
      requires Valid() && RangeIs(view, base, pageCount, Reserved) && pm.reserved >= pageCount
      modifies this`F, this`view, Repr, pm`used, pm`reserved, pm`next, pm`free, pm.bmp
      ensures ValidBut(pageCount)
      ensures RangeCommitted(old(view), view, base, pageCount)
      ensures pm.reserved == old(pm.reserved) - pageCount
      ensures Stock(pm.free, F) == old(Stock(pm.free, F))
    {
      hide *;
      var n: nat, off: nat, count: nat := TableOf(base), EntryOf(base), 0;
      StartOf(base);
      Parts(0);
      Whole(0);
      CommittedNone(view, base);
      while count < pageCount
        invariant count <= pageCount && ValidBut(count)
        invariant this !in Repr && pm !in Repr && pm.bmp !in Repr
        invariant off < ENTRIES && Page(n, off) == base + count
        invariant RangeCommitted(old(view), view, base, count)
        invariant pm.reserved == old(pm.reserved) - count
        invariant Stock(pm.free, F) == old(Stock(pm.free, F))
      {
        StillReserved(old(view), view, base, pageCount, count);
        ghost var w := view;
        ghost var f := CommitAt(n, off, count);
        CommittedMore(old(view), w, n, off, base, count, f);
        NextPage(n, off);
        count := count + 1;
        off := off + 1;
        if off == ENTRIES {
          off := 0;
          n := n + 1;
        }
      }
    }

    /** The callback of the second pass of commit. */
    method CommitAt(n: nat, off: nat, ghost lag: nat) returns (ghost f: nat)
      requires ValidBut(lag) && off < ENTRIES && StateAt(view, Page(n, off)) == PageState.Reserved && pm.reserved > 0
      modifies this`F, this`view, Repr, pm`used, pm`reserved, pm`next, pm`free, pm.bmp
      ensures ValidBut(lag + 1) && n in old(view) && |old(view)[n]| == ENTRIES && f != 0
      ensures view == old(view)[n := old(view)[n][off := CommitEntry(old(view)[n][off], f)]]
      ensures pm.reserved == old(pm.reserved) - 1
      ensures Stock(pm.free, F) == old(Stock(pm.free, F))
    {
      hide *;
      Parts(lag);
      ReservedIsNotFree(view, n, off);
      ReservedTable(view, n, off);
      ViewTable(n);
      TableFacts(n);
      var page := TakePage();
      CommitOne(view, n, off, page);
      AccountCommitted(cr3, pl4te, dirs, TabsOf(tables), view,
          view[n := view[n][off := CommitEntry(view[n][off], page)]], F, Page(n, off), page);
      OwnMore(F, old(pm.free), pm.bmpSize, Leaf(Page(n, off)), page);
      OverwriteObject(tables, Repr, n, off, CommitEntry(tables[n].pte[off], page));
      view := view[n := view[n][off := CommitEntry(view[n][off], page)]];
      F := With(F, Leaf(Page(n, off)), page);
      Whole(lag + 1);
      f := page;
    }

    method TakePage() returns (page: nat)
      requires pm.Valid() && pm.reserved > 0 && 0 !in pm.free
      modifies pm`used, pm`reserved, pm`next, pm`free, pm.bmp
      ensures pm.Valid() && page in old(pm.free) && page < pm.bmpSize && page != 0
      ensures pm.free == Less(old(pm.free), page)
      ensures pm.used == old(pm.used) + 1 && pm.reserved == old(pm.reserved) - 1
    {
      hide *;
      pm.Accounting();
      page := pm.Allocate(Take);
      LessIs(old(pm.free), page);
    }

    /** user_vspace::protect.  `stray` says that the caller's mask has bits
        that may not be set. */
    method Protect(base: nat, pageCount: nat, a: Attributes, stray: bool) returns (ok: bool)
      requires Valid()
      modifies this`view, Repr
      ensures Valid()
      ensures ok <==>
        0 < base && 0 < pageCount && base + pageCount <= PAGES && !stray && AllCommitted(old(view), base, pageCount)
      ensures ok ==> RangeProtected(old(view), view, base, pageCount, a) && SameStates(old(view), view)
      ensures !ok ==> view == old(view)
    {
      hide *;
      CheckIs(base, pageCount);
      if !CommonCheck(base, pageCount) {
        return false;
      }
      if stray {
        return false;
      }
      Parts(0);
      ViewIsRegular();
      var res := Iterate(base, pageCount, Protectable);
      ProtectableRange(view, base, pageCount, res);
      if res != pageCount {
        return false;
      }
      ProtectRange(base, pageCount, a);
      ProtectedSame(old(view), view, base, pageCount, a);
      return true;
    }

    method ProtectRange(base: nat, pageCount: nat, a: Attributes)
      requires Valid() && AllCommitted(view, base, pageCount)
      modifies this`view, Repr
      ensures Valid() && RangeProtected(old(view), view, base, pageCount, a)
    {
      hide *;
      var n: nat, off: nat, count: nat := TableOf(base), EntryOf(base), 0;
      StartOf(base);
      Parts(0);
      ProtectedNone(view, base, a);
      while count < pageCount
        invariant count <= pageCount && Valid() && this !in Repr
        invariant off < ENTRIES && Page(n, off) == base + count
        invariant RangeProtected(old(view), view, base, count, a)
      {
        ProtectedSame(old(view), view, base, count, a);
        StillCommitted(old(view), view, base, pageCount, count);
        ReservedTable(view, n, off);
        ghost var w := view;
        ProtectAt(n, off, a);
        ProtectedMore(old(view), w, n, off, base, count, a);
        NextPage(n, off);
        count := count + 1;
        off := off + 1;
        if off == ENTRIES {
          off := 0;
          n := n + 1;
        }
      }
    }

    method ProtectAt(n: nat, off: nat, a: Attributes)
      requires Valid() && off < ENTRIES && n in view && StateAt(view, Page(n, off)).Committed?
      modifies this`view, Repr
      ensures Valid() && n in old(view) && |old(view)[n]| == ENTRIES
      ensures view == old(view)[n := old(view)[n][off := ProtectEntry(old(view)[n][off], a)]]
    {
      hide *;
      Parts(0);
      ViewTable(n);
      TableFacts(n);
      ProtectOne(view, n, off, a);
      AccountSame(cr3, pl4te, dirs, TabsOf(tables), view, view[n := view[n][off := ProtectEntry(view[n][off], a)]], F);
      OverwriteObject(tables, Repr, n, off, ProtectEntry(tables[n].pte[off], a));
      view := view[n := view[n][off := ProtectEntry(view[n][off], a)]];
      Whole(0);
    }

    /** user_vspace::reserve: at a fixed address, or anywhere.  place is where the
        pages are; anywhere above 4 GB the caller is told another address. */
    method Reserve(addr: nat, pageCount: nat) returns (res: nat, ghost place: Option<nat>, ghost lost: set<nat>)
      requires Valid()
      modifies this, Repr, pm`used, pm`reserved, pm`next, pm`free, pm.bmp
      ensures Valid() && fresh(Repr - old(Repr))
      ensures RangesBecome(old(view), view, lost + Spot(place), pageCount)
        && AllWereFree(old(view), lost + Spot(place), pageCount)
      ensures AllUntold(lost) && (addr != 0 ==> lost == {})
      ensures res == if place.None? then 0 else if addr != 0 then addr else Told(place.value)
      ensures addr != 0 && place.Some? ==> place.value == addr
      ensures res != 0 && (addr != 0 || place.value < WRAP) ==> RangeBecomes(old(view), view, res, pageCount, Reserved)
      ensures addr == 0 && place.Some? && place.value >= WRAP ==> res != place.value
      // at a fixed address
      ensures addr != 0 && place.None? ==>
        pageCount == 0 || Refusable(old(view), addr, pageCount)
          || (LowMemory() && Lacking(old(view), addr, pageCount))
      ensures addr != 0 && (pageCount == 0 || addr + pageCount > PAGES) ==> place.None?
      // anywhere
      ensures addr == 0 && (pageCount == 0 || pageCount > 0x40000) ==> place.None? && lost == {}
      ensures addr == 0 && 0 < pageCount < 0x200 && place.Some? ==>
        AnyBase(old(view), place.value, pageCount)
          && Passed(old(view), TableOf(place.value), pageCount, lost, LowMemory() && TableOf(place.value) in old(view))
      ensures addr == 0 && 0 < pageCount < 0x200 && place.None? ==>
        exists d: nat :: PassedUpTo(old(view), d, pageCount, lost)
      ensures addr == 0 && 0x200 <= pageCount <= 0x40000 && place.Some? ==>
        BigBase(old(view), place.value, pageCount)
          && BigPassed(old(view), old(dirs.Keys), DirOf(TableOf(place.value)), AlignUp(pageCount), old(Room()))
      ensures addr == 0 && 0x200 <= pageCount <= 0x40000 && place.None? ==>
        lost == {} && BigEnded(old(view), old(dirs.Keys), AlignUp(pageCount), old(Room()))
      ensures Stock(pm.free, F) == old(Stock(pm.free, F)) && pm.reserved == old(pm.reserved)
    {
      hide *;
      res, place, lost := 0, None, {};
      TableIs512();
      RangesNone(view, pageCount);
      NoSpot({});
      if addr != 0 {
        CheckIs(addr, pageCount);
        RefusesOutside(view, addr, pageCount);
        if !CommonCheck(addr, pageCount) {
          return;
        }
        var ok := ReserveFixed(addr, pageCount);
        if ok {
          SpotOnly(old(view), view, addr, pageCount);
          return addr, Some(addr), {};
        }
        RangesSame(old(view), old(view), view, {}, pageCount);
        return;
      }
      if pageCount == 0 || pageCount > 0x40000 {
        return;
      }
      if pageCount < 0x200 {
        res, place, lost := ReserveAny(pageCount);
      } else {
        res, place := ReserveBig(pageCount);
        if place.Some? {
          SpotOnly(old(view), view, place.value, pageCount);
        }
      }
      if place.Some? {
        ToldWhere(place.value);
        if place.value < WRAP {
          AloneSpot(lost, place);
          RangesOne(old(view), view, place.value, pageCount);
        }
      }
    }

    /** The accounts while the space is being torn down: G is what it still owns. */
    ghost predicate Leaving(G: map<Place, nat>, stock: set<nat>, spent: int)
      reads pm, pm.bmp
    {
      && pm.Valid() && Owned(G, pm.free, pm.bmpSize) && |G| <= pm.used
      && Stock(pm.free, G) == stock && pm.used - |G| == spent
    }

    /** Gives the frame in place a back.  Releasing a frame that is free is the
        page allocator's bugcheck; it is not reachable. */
    method GiveBack(ghost a: Place, frame: nat, ghost G: map<Place, nat>, ghost stock: set<nat>, ghost spent: int)
      requires Leaving(G, stock, spent) && a in G && G[a] == frame
      modifies pm`used, pm`free, pm.bmp
      ensures Leaving(G - {a}, stock, spent)
    {
      OwnLess(G, pm.free, pm.bmpSize, a);
      assert frame !in pm.free && frame < pm.bmpSize;
      hide Owned, PM.Valid, Stock;
      pm.Release(frame);
    }

    /** The innermost loop of the destructor. */
    method GiveBackLeaves(d: nat, n: nat, ghost v: View, ghost stock: set<nat>, ghost spent: int)
      requires n in tables && pm !in Repr && pm.bmp !in Repr
      requires Accounts(cr3, pl4te, dirs, TabsOf(tables), v, F) && Holds(tables, Repr, v, n)
      requires Leaving(Rest(F, d, n, Page(n, 0)), stock, spent)
      modifies tables[n].pte, pm`used, pm`free, pm.bmp
      ensures Leaving(Rest(F, d, n, Page(n + 1, 0)), stock, spent)
    {
      hide *;
      HoldsAt(tables, Repr, v, n);
      ghost var t := v[n];
      var pte := tables[n].pte;
      for j := 0 to ENTRIES
        invariant pte.Length == ENTRIES && forall i :: j <= i < ENTRIES ==> pte[i] == t[i]
        invariant Leaving(Rest(F, d, n, Page(n, j)), stock, spent)
      {
        OwnedLeaf(cr3, pl4te, dirs, TabsOf(tables), v, F, n, j);
        NextPage(n, j);
        var cur := pte[j];
        if cur.present {
          pte[j] := cur.(present := false);
          RestTakeLeaf(F, d, n, Page(n, j));
          GiveBack(Leaf(Page(n, j)), cur.frame, Rest(F, d, n, Page(n, j)), stock, spent);
        } else {
          RestSkipLeaf(F, d, n, Page(n, j));
        }
      }
      TableSpan(n);
    }

    /** Gives back a table with all its pages. */
    method GiveBackTable(d: nat, n: nat, ghost v: View, ghost stock: set<nat>, ghost spent: int)
      requires n in tables && pm !in Repr && pm.bmp !in Repr
      requires Accounts(cr3, pl4te, dirs, TabsOf(tables), v, F) && Holds(tables, Repr, v, n)
      requires Leaving(Rest(F, d, n, Page(n, 0)), stock, spent)
      modifies tables[n].pte, pm`used, pm`free, pm.bmp
      ensures Holds(tables, Repr, v, n + 1)
      ensures Leaving(Rest(F, d, n + 1, Page(n + 1, 0)), stock, spent)
    {
      hide Accounts, Leaving, Rest, Page, TabsOf;
      var table := tables[n];
      GiveBackLeaves(d, n, v, stock, spent);
      forall m | m in tables && m != n ensures tables[m].pte[..] == old(tables[m].pte[..]) {
      }
      TabOf(n);
      OwnedPlaces(cr3, pl4te, dirs, TabsOf(tables), v, F);
      RestTakeTable(F, d, n, Page(n + 1, 0));
      GiveBack(Table(n), table.frame, Rest(F, d, n, Page(n + 1, 0)), stock, spent);
    }

    lemma TabOf(n: nat)
      requires n in tables
      ensures n in TabsOf(tables) && TabsOf(tables)[n] == tables[n].frame
    {
    }

    /** The middle loop of the destructor. */
    method GiveBackDirectory(d: nat, ghost v: View, ghost stock: set<nat>, ghost spent: int)
      requires d < SLOTS && d in dirs && this !in Repr && pm !in Repr && pm.bmp !in Repr
      requires Accounts(cr3, pl4te, dirs, TabsOf(tables), v, F) && Holds(tables, Repr, v, TableAt(d, 0))
      requires v.Keys == TabsOf(tables).Keys && TabsOf(tables).Keys == tables.Keys
      requires Leaving(Rest(F, d, TableAt(d, 0), Page(TableAt(d, 0), 0)), stock, spent)
      modifies Repr, pm`used, pm`free, pm.bmp
      ensures Holds(tables, Repr, v, TableAt(d + 1, 0))
      ensures Leaving(Rest(F, d + 1, TableAt(d + 1, 0), Page(TableAt(d + 1, 0), 0)), stock, spent)
    {
      hide *;
      for i := 0 to SLOTS
        invariant Holds(tables, Repr, v, TableAt(d, i))
        invariant Leaving(Rest(F, d, TableAt(d, i), Page(TableAt(d, i), 0)), stock, spent)
      {
        var n := TableAt(d, i);
        TableAtBounds(d, i);
        if n in tables {
          HoldsAt(tables, Repr, v, n);
          GiveBackTable(d, n, v, stock, spent);
        } else {
          MissingTable(cr3, pl4te, dirs, TabsOf(tables), v, F, n);
          RestSkipTable(F, d, n);
          HoldsLater(tables, Repr, v, n, n + 1);
        }
      }
      NextDirectory(d);
      ghost var n := TableAt(d + 1, 0);
      OwnedPlaces(cr3, pl4te, dirs, TabsOf(tables), v, F);
      RestTakeDirectory(F, d, n, Page(n, 0));
      GiveBack(Directory(d), dirs[d], Rest(F, d, n, Page(n, 0)), stock, spent);
    }

    /** The destructor gives back every frame the space owns, each once. */
    method Destroy()
      requires Valid()
      modifies Repr, pm`used, pm`free, pm.bmp
      ensures pm.Valid()
      ensures pm.used == old(pm.used) - old(usedPages)
      ensures pm.free == old(pm.free) + old(F.Values)
    {
      hide *;
      Parts(0);
      ghost var v, stock, spent := view, Stock(pm.free, F), pm.used - |F|;
      ViewKeys(tables, Repr);
      HoldsAll(tables, Repr);
      LastPage();
      RestAll(F);
      StartLeaving(stock, spent);
      for d := 0 to SLOTS
        invariant Holds(tables, Repr, v, TableAt(d, 0))
        invariant Leaving(Rest(F, d, TableAt(d, 0), Page(TableAt(d, 0), 0)), stock, spent)
      {
        if d in dirs {
          GiveBackDirectory(d, v, stock, spent);
        } else {
          MissingDirectory(cr3, pl4te, dirs, TabsOf(tables), v, F, d);
          RestSkipDirectory(F, d);
          TableLater(d);
          HoldsLater(tables, Repr, v, TableAt(d, 0), TableAt(d + 1, 0));
        }
      }
      RestTop(cr3, pl4te, dirs, TabsOf(tables), v, F);
      GiveBackTop(map[Root := cr3, Level4 := pl4te], stock, spent);
      StockIs(old(pm.free), F);
    }

    /** The last two frames: those of the top tables. */
    method GiveBackTop(ghost top: map<Place, nat>, ghost stock: set<nat>, ghost spent: int)
      requires top == map[Root := cr3, Level4 := pl4te] && Leaving(top, stock, spent)
      modifies pm`used, pm`free, pm.bmp
      ensures pm.Valid() && pm.free == stock && pm.used == spent
    {
      hide *;
      Emptied(top);
      GiveBack(Level4, pl4te, top, stock, spent);
      GiveBack(Root, cr3, top - {Level4}, stock, spent);
      EndLeaving(top - {Level4} - {Root}, stock, spent);
    }

    lemma StartLeaving(stock: set<nat>, spent: int)
      requires pm.Valid() && Owned(F, pm.free, pm.bmpSize) && |F| <= pm.used
      requires stock == Stock(pm.free, F) && spent == pm.used - |F|
      ensures Leaving(F, stock, spent)
    {
    }

    lemma EndLeaving(G: map<Place, nat>, stock: set<nat>, spent: int)
      requires Leaving(G, stock, spent) && |G| == 0
      ensures pm.Valid() && pm.free == stock && pm.used == spent
    {
    }

    ghost predicate LowMemory()
      reads pm
    {
      pm.used + pm.reserved + pm.hardLimit >= pm.total
    }
  }
}
