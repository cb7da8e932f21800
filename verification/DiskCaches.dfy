/** The write-back sector cache (kernel/dev/disk_interface.cpp).

    A slot holds one page of eight sectors. The bit masks valid and dirty are
    sets of positions in the page. Disk commands may fail part way. */
module DiskCaches {

  const SECTORS := 8

  type Sector = seq<nat>

  /** A sector of zeros. */
  function Zero(): (s: Sector)
    ensures |s| == 512
    ensures forall k :: 0 <= k < 512 ==> s[k] == 0
  {
    seq(512, _ => 0)
  }

  /** Positions off up to off + count of a page. */
  function Span(off: nat, count: nat): (s: set<nat>)
    ensures forall k: nat :: k in s <==> off <= k < off + count
    decreases count
  {
    if count == 0 then {} else Span(off, count - 1) + {off + count - 1}
  }

  /** The mask with all bits set. */
  function All(): set<nat> {
    Span(0, SECTORS)
  }

  function PageLba(lba: nat): nat {
    lba - lba % SECTORS
  }

  /** Sectors from lba to the end of its page. */
  function Room(lba: nat): nat {
    SECTORS - lba % SECTORS
  }

  // ---------------------------------------------------------------------
  // What the cache means
  // ---------------------------------------------------------------------

  /** The state of a slot. */
  datatype Page = Page(base: nat, valid: set<nat>, dirty: set<nat>, data: seq<Sector>, time: nat, locked: bool)

  ghost predicate Holds(p: Page, x: nat) {
    p.base <= x && x - p.base in p.valid
  }

  ghost predicate Dirty(p: Page, x: nat) {
    p.base <= x && x - p.base in p.dirty
  }

  ghost predicate InPage(s: set<nat>) {
    forall k :: k in s ==> k < SECTORS
  }

  ghost predicate PageOk(p: Page, size: nat) {
    && |p.data| == SECTORS && p.dirty <= p.valid && InPage(p.valid)
    && (p.valid != {} ==> p.base % SECTORS == 0 && p.base + SECTORS <= size)
  }

  /** At most one slot is valid for a page. */
  ghost predicate OneSlotEach(pages: seq<Page>) {
    forall i, j :: 0 <= i < j < |pages| && pages[i].valid != {} && pages[j].valid != {} ==>
      pages[i].base != pages[j].base
  }

  ghost predicate NoneDirty(pages: seq<Page>, x: nat) {
    forall i :: 0 <= i < |pages| ==> !Dirty(pages[i], x)
  }

  ghost predicate TrueTo(p: Page, content: seq<Sector>) {
    forall k :: k in p.valid && p.base + k < |content| && k < |p.data| ==> p.data[k] == content[p.base + k]
  }

  /** The slots over this disk show the plain sectors of content. */
  ghost predicate Refines(pages: seq<Page>, disk: seq<Sector>, content: seq<Sector>) {
    && |disk| == |content|
    && (forall i :: 0 <= i < |pages| ==> PageOk(pages[i], |disk|))
    && (forall i :: 0 <= i < |pages| ==> TrueTo(pages[i], content))
    && OneSlotEach(pages)
    && (forall x: nat :: x < |disk| && NoneDirty(pages, x) ==> disk[x] == content[x])
  }

  /** What a reader sees of sector x: the copy in a slot that is valid for it, else the disk. */
  ghost function Visible(pages: seq<Page>, disk: seq<Sector>, x: nat): Sector
    requires x < |disk| && forall i :: 0 <= i < |pages| ==> PageOk(pages[i], |disk|)
  {
    if exists i :: 0 <= i < |pages| && Holds(pages[i], x) then
      var i :| 0 <= i < |pages| && Holds(pages[i], x);
      HeldIsOk(pages[i], |disk|, x);
      pages[i].data[x - pages[i].base]
    else disk[x]
  }

  lemma HeldIsOk(p: Page, size: nat, x: nat)
    requires PageOk(p, size) && Holds(p, x)
    ensures x - p.base < SECTORS && p.base == PageLba(x)
  {
  }

  /** What is visible is the plain content. */
  lemma VisibleIsContent(pages: seq<Page>, disk: seq<Sector>, content: seq<Sector>, x: nat)
    requires Refines(pages, disk, content) && x < |disk|
    ensures Visible(pages, disk, x) == content[x]
  {
    if exists i :: 0 <= i < |pages| && Holds(pages[i], x) {
      forall i | 0 <= i < |pages| && Holds(pages[i], x) ensures pages[i].data[x - pages[i].base] == content[x] {
        assert TrueTo(pages[i], content);
        assert x - pages[i].base in pages[i].valid;
      }
    } else {
      forall i | 0 <= i < |pages| ensures !Dirty(pages[i], x) {
        assert !Holds(pages[i], x);
        assert PageOk(pages[i], |disk|);
      }
      assert NoneDirty(pages, x);
    }
  }

  /** A sector is held by one slot at most. */
  lemma HeldOnce(pages: seq<Page>, size: nat, i: nat, j: nat, x: nat)
    requires OneSlotEach(pages) && i < |pages| && j < |pages| && i != j
    requires PageOk(pages[i], size) && PageOk(pages[j], size) && Holds(pages[i], x)
    ensures !Holds(pages[j], x) && !Dirty(pages[j], x)
  {
    HeldIsOk(pages[i], size, x);
    if Holds(pages[j], x) {
      HeldIsOk(pages[j], size, x);
    }
  }

  /** A sector that is valid and clean in a slot equals the disk. */
  lemma CleanEqualsDisk(pages: seq<Page>, disk: seq<Sector>, content: seq<Sector>, i: nat, x: nat)
    requires Refines(pages, disk, content) && i < |pages| && Holds(pages[i], x) && !Dirty(pages[i], x)
    ensures x < |disk| && x - pages[i].base < SECTORS == |pages[i].data|
    ensures pages[i].data[x - pages[i].base] == disk[x]
  {
    HeldIsOk(pages[i], |disk|, x);
    forall j | 0 <= j < |pages| ensures !Dirty(pages[j], x) {
      if j != i {
        HeldOnce(pages, |disk|, i, j, x);
      }
    }
    assert NoneDirty(pages, x);
    assert TrueTo(pages[i], content);
    assert x - pages[i].base in pages[i].valid;
  }

  /** With nothing dirty the disk is the content. */
  lemma CleanDiskIsContent(pages: seq<Page>, disk: seq<Sector>, content: seq<Sector>)
    requires Refines(pages, disk, content) && forall i :: 0 <= i < |pages| ==> pages[i].dirty == {}
    ensures disk == content
  {
    forall x: nat | x < |disk| ensures disk[x] == content[x] {
      assert NoneDirty(pages, x);
    }
  }

  // ---------------------------------------------------------------------
  // Steps that change one slot
  // ---------------------------------------------------------------------

  /** The disk changed at most where page p is dirty. */
  ghost predicate OnlyDirty(disk: seq<Sector>, d: seq<Sector>, p: Page) {
    |d| == |disk| && forall x: nat :: x < |disk| && !Dirty(p, x) ==> d[x] == disk[x]
  }

  /** The first n sectors of page p are written back, no others changed. */
  ghost predicate WrittenTo(disk: seq<Sector>, d: seq<Sector>, p: Page, n: nat)
    requires |p.data| == SECTORS
  {
    && |d| == |disk|
    && forall x: nat :: x < |disk| ==>
      d[x] == if Dirty(p, x) && x - p.base < n && x - p.base < SECTORS then p.data[x - p.base] else disk[x]
  }

  /** A failed or unfinished flush harms nothing. */
  lemma HalfFlushed(pages: seq<Page>, disk: seq<Sector>, d: seq<Sector>, content: seq<Sector>, i: nat)
    requires Refines(pages, disk, content) && i < |pages| && OnlyDirty(disk, d, pages[i])
    ensures Refines(pages, d, content)
  {
    forall x: nat | x < |d| && NoneDirty(pages, x) ensures d[x] == content[x] {
      assert !Dirty(pages[i], x);
    }
  }

  /** No other slot is valid for the page at base. */
  ghost predicate NoOther(pages: seq<Page>, i: nat, base: nat) {
    forall j :: 0 <= j < |pages| && j != i && pages[j].valid != {} ==> pages[j].base != base
  }

  /** Where p is clean, disk and content agree or did not change at a clean sector. */
  ghost predicate Settled(old_: Page, p: Page, disk: seq<Sector>, d: seq<Sector>, content: seq<Sector>,
      c: seq<Sector>) {
    && |d| == |disk| == |content| == |c|
    && forall x: nat :: x < |d| && !Dirty(p, x) ==>
      d[x] == c[x] || (!Dirty(old_, x) && d[x] == disk[x] && c[x] == content[x])
  }

  /** Putting page p in place of the i-th, in general. */
  lemma PageReplaced(pages: seq<Page>, disk: seq<Sector>, d: seq<Sector>, content: seq<Sector>, c: seq<Sector>, i: nat,
      p: Page)
    requires Refines(pages, disk, content) && i < |pages|
    requires Settled(pages[i], p, disk, d, content, c)
    requires PageOk(p, |d|) && TrueTo(p, c)
    requires p.valid != {} ==> NoOther(pages, i, p.base)
    requires forall j :: 0 <= j < |pages| && j != i ==> TrueTo(pages[j], c)
    ensures Refines(pages[i := p], d, c)
  {
    hide PageOk, TrueTo, Dirty;
    var q := pages[i := p];
    forall x: nat | x < |d| && NoneDirty(q, x) ensures d[x] == c[x] {
      assert !Dirty(q[i], x);
      if !Dirty(pages[i], x) {
        forall j | 0 <= j < |pages| ensures !Dirty(pages[j], x) {
          assert !Dirty(q[j], x);
        }
        assert NoneDirty(pages, x);
      }
    }
  }

  lemma PageParts(pages: seq<Page>, disk: seq<Sector>, content: seq<Sector>, i: nat)
    requires Refines(pages, disk, content) && i < |pages|
    ensures PageOk(pages[i], |disk|) && TrueTo(pages[i], content) && |disk| == |content|
    ensures pages[i].valid != {} ==> NoOther(pages, i, pages[i].base)
    ensures forall j :: 0 <= j < |pages| ==> PageOk(pages[j], |disk|) && TrueTo(pages[j], content)
  {
    hide PageOk, TrueTo;
  }

  lemma FlushKeeps(pages: seq<Page>, disk: seq<Sector>, d: seq<Sector>, content: seq<Sector>, i: nat)
    requires Refines(pages, disk, content) && i < |pages|
    requires |pages[i].data| == SECTORS && WrittenTo(disk, d, pages[i], SECTORS)
    ensures Refines(pages[i := pages[i].(dirty := {})], d, content)
  {
    hide Refines, OneSlotEach, NoneDirty, NoOther;
    var p := pages[i];
    PageParts(pages, disk, content, i);
    forall x: nat | x < |d| && Dirty(p, x) ensures d[x] == content[x] {
      assert x - p.base in p.valid;
    }
    PageReplaced(pages, disk, d, content, content, i, p.(dirty := {}));
  }

  /** Emptying a clean slot, whatever base it is then given. */
  lemma EmptyKeeps(pages: seq<Page>, disk: seq<Sector>, content: seq<Sector>, i: nat, p: Page)
    requires Refines(pages, disk, content) && i < |pages| && pages[i].dirty == {}
    requires p.valid == {} && p.dirty == {} && |p.data| == SECTORS
    ensures Refines(pages[i := p], disk, content)
  {
    hide Refines, OneSlotEach, NoneDirty, NoOther, Settled;
    PageParts(pages, disk, content, i);
    CleanSettles(pages[i], p, disk, content);
    PageReplaced(pages, disk, disk, content, content, i, p);
  }

  /** Filling a clean slot with the sectors of a page that no other slot holds. */
  lemma FillKeeps(pages: seq<Page>, disk: seq<Sector>, content: seq<Sector>, i: nat, p: Page)
    requires Refines(pages, disk, content) && i < |pages| && pages[i].dirty == {}
    requires p.base % SECTORS == 0 && p.base + SECTORS <= |disk| && NoOther(pages, i, p.base)
    requires p.valid == All() && p.dirty == {} && p.data == disk[p.base..p.base + SECTORS]
    ensures Refines(pages[i := p], disk, content)
  {
    hide *;
    PageParts(pages, disk, content, i);
    FilledIsTrue(pages, disk, content, i, p);
    CleanSettles(pages[i], p, disk, content);
    PageReplaced(pages, disk, disk, content, content, i, p);
  }

  lemma FilledIsTrue(pages: seq<Page>, disk: seq<Sector>, content: seq<Sector>, i: nat, p: Page)
    requires Refines(pages, disk, content) && i < |pages| && pages[i].dirty == {}
    requires p.base % SECTORS == 0 && p.base + SECTORS <= |disk| && NoOther(pages, i, p.base)
    requires p.valid == All() && p.dirty == {} && p.data == disk[p.base..p.base + SECTORS]
    ensures PageOk(p, |disk|) && TrueTo(p, content)
  {
    hide OneSlotEach, NoOther, TrueTo, NoneDirty;
    forall k | k in p.valid && k < SECTORS ensures p.data[k] == content[p.base + k] {
      CleanInAll(pages, |disk|, i, p.base, p.base + k);
    }
    TrueEverywhere(p, content);
  }

  /** A slot that was clean settles nothing new. */
  lemma CleanSettles(o: Page, p: Page, disk: seq<Sector>, content: seq<Sector>)
    requires o.dirty == {} && |disk| == |content|
    ensures Settled(o, p, disk, disk, content, content)
  {
  }

  lemma CleanInAll(pages: seq<Page>, size: nat, i: nat, base: nat, x: nat)
    requires i < |pages| && pages[i].dirty == {} && NoOther(pages, i, base)
    requires forall j :: 0 <= j < |pages| ==> PageOk(pages[j], size)
    requires base % SECTORS == 0 && base <= x < base + SECTORS
    ensures NoneDirty(pages, x)
  {
    forall j | 0 <= j < |pages| ensures !Dirty(pages[j], x) {
      if Holds(pages[j], x) {
        HeldIsOk(pages[j], size, x);
      }
    }
  }

  /** The sectors from lba on are replaced. */
  function Replaced(content: seq<Sector>, lba: nat, s: seq<Sector>): (r: seq<Sector>)
    requires lba + |s| <= |content|
    ensures |r| == |content|
    ensures forall x: nat :: x < |content| ==> r[x] == if lba <= x < lba + |s| then s[x - lba] else content[x]
  {
    content[..lba] + s + content[lba + |s|..]
  }

  /** Writing sectors that become dirty and valid in the one slot of their page. */
  lemma WriteKeeps(pages: seq<Page>, disk: seq<Sector>, content: seq<Sector>, i: nat, p: Page, off: nat, s: seq<Sector>)
    requires Refines(pages, disk, content) && i < |pages| && off + |s| <= SECTORS && |s| > 0
    requires p.base % SECTORS == 0 && p.base + SECTORS <= |disk| == |content| && NoOther(pages, i, p.base)
    requires |pages[i].data| == SECTORS && p.data == Replaced(pages[i].data, off, s)
    requires p.dirty == pages[i].dirty + Span(off, |s|) && p.valid == pages[i].valid + Span(off, |s|)
    requires pages[i].valid == {} || pages[i].base == p.base
    ensures Refines(pages[i := p], disk, Replaced(content, p.base + off, s))
  {
    hide *;
    var c := Replaced(content, p.base + off, s);
    PageParts(pages, disk, content, i);
    forall j | 0 <= j < |pages| && j != i ensures TrueTo(pages[j], c) {
      OtherBase(pages, i, p.base, j);
      OthersTrue(pages[j], content, |disk|, p.base + off, s, p.base);
    }
    WrittenIsOk(pages[i], p, |disk|, off, s);
    WrittenIsTrue(pages[i], p, content, off, s);
    WrittenIsSettled(pages[i], p, disk, content, off, s);
    PageReplaced(pages, disk, disk, content, c, i, p);
  }

  lemma OtherBase(pages: seq<Page>, i: nat, base: nat, j: nat)
    requires NoOther(pages, i, base) && j < |pages| && j != i
    ensures pages[j].valid != {} ==> pages[j].base != base
  {
  }

  lemma WrittenIsOk(o: Page, p: Page, size: nat, off: nat, s: seq<Sector>)
    requires PageOk(o, size) && off + |s| <= SECTORS && p.base % SECTORS == 0 && p.base + SECTORS <= size
    requires p.data == Replaced(o.data, off, s) && p.valid == o.valid + Span(off, |s|)
      && p.dirty == o.dirty + Span(off, |s|)
    ensures PageOk(p, size) && o.dirty <= o.valid
  {
    hide Replaced;
    forall k | k in p.valid ensures k < SECTORS {
      assert k in o.valid || k in Span(off, |s|);
    }
  }

  lemma WrittenIsTrue(o: Page, p: Page, content: seq<Sector>, off: nat, s: seq<Sector>)
    requires TrueTo(o, content) && |o.data| == SECTORS && off + |s| <= SECTORS && p.base + SECTORS <= |content|
    requires o.valid == {} || o.base == p.base
    requires p.data == Replaced(o.data, off, s) && p.valid == o.valid + Span(off, |s|)
    ensures TrueTo(p, Replaced(content, p.base + off, s))
  {
    hide Replaced, Span, TrueTo;
    var c := Replaced(content, p.base + off, s);
    forall k | k in p.valid && k < SECTORS ensures p.data[k] == c[p.base + k] {
      if off <= k < off + |s| {
        assert p.data[k] == s[k - off] && c[p.base + k] == s[k - off];
      } else {
        assert p.data[k] == o.data[k] && c[p.base + k] == content[p.base + k];
        TrueAt(o, content, k);
      }
    }
    TrueEverywhere(p, c);
  }

  lemma TrueAt(p: Page, content: seq<Sector>, k: nat)
    requires TrueTo(p, content) && k in p.valid && p.base + k < |content| && k < |p.data|
    ensures p.data[k] == content[p.base + k]
  {
  }

  lemma TrueEverywhere(p: Page, content: seq<Sector>)
    requires |p.data| == SECTORS && p.base + SECTORS <= |content|
    requires forall k :: k in p.valid && k < SECTORS ==> p.data[k] == content[p.base + k]
    ensures TrueTo(p, content)
  {
  }

  lemma WrittenIsSettled(o: Page, p: Page, disk: seq<Sector>, content: seq<Sector>, off: nat, s: seq<Sector>)
    requires |disk| == |content| && off + |s| <= SECTORS && p.base + SECTORS <= |content|
    requires o.valid == {} || o.base == p.base
    requires o.dirty <= o.valid && p.dirty == o.dirty + Span(off, |s|)
    ensures Settled(o, p, disk, disk, content, Replaced(content, p.base + off, s))
  {
    var c := Replaced(content, p.base + off, s);
    forall x: nat | x < |disk| && !Dirty(p, x) ensures !Dirty(o, x) && c[x] == content[x] {
      assert Dirty(p, x) <== p.base + off <= x < p.base + off + |s|;
    }
  }

  lemma PagesApart(a: nat, b: nat)
    requires a % SECTORS == 0 && b % SECTORS == 0 && a != b
    ensures a + SECTORS <= b || b + SECTORS <= a
  {
  }

  lemma OthersTrue(p: Page, content: seq<Sector>, size: nat, lba: nat, s: seq<Sector>, base: nat)
    requires TrueTo(p, content) && PageOk(p, size) && size == |content| && lba + |s| <= size
    requires base % SECTORS == 0 && base <= lba && lba + |s| <= base + SECTORS
    requires p.valid != {} ==> p.base != base
    ensures TrueTo(p, Replaced(content, lba, s))
  {
    if p.valid != {} {
      PagesApart(p.base, base);
    }
  }

  /** Marking valid sectors dirty keeps the content; so does locking. */
  lemma MarkKeeps(pages: seq<Page>, disk: seq<Sector>, content: seq<Sector>, i: nat, more: set<nat>, locked: bool)
    requires Refines(pages, disk, content) && i < |pages| && more <= pages[i].valid
    ensures Refines(pages[i := pages[i].(dirty := pages[i].dirty + more, locked := locked)], disk, content)
  {
    hide *;
    PageParts(pages, disk, content, i);
    MarkedIsRight(pages[i], disk, content, more, locked);
    PageReplaced(pages, disk, disk, content, content, i, pages[i].(dirty := pages[i].dirty + more, locked := locked));
  }

  lemma MarkedIsRight(o: Page, disk: seq<Sector>, content: seq<Sector>, more: set<nat>, locked: bool)
    requires PageOk(o, |disk|) && TrueTo(o, content) && |disk| == |content| && more <= o.valid
    ensures var p := o.(dirty := o.dirty + more, locked := locked);
      PageOk(p, |disk|) && TrueTo(p, content) && Settled(o, p, disk, disk, content, content)
  {
  }

  // ---------------------------------------------------------------------
  // The disk
  // ---------------------------------------------------------------------

  /** A disk that takes one command at a time. The plan tells how many sectors
      each coming command moves before it fails; without a plan commands succeed. */
  class Ide {
    const sectors: array<Sector>
    var plan: seq<nat>

    constructor (sectors: array<Sector>, plan: seq<nat>)
      ensures this.sectors == sectors && this.plan == plan
    {
      this.sectors, this.plan := sectors, plan;
    }

    method Moves(count: nat) returns (n: nat)
      modifies this`plan
      ensures n <= count
      ensures old(plan) == [] ==> n == count && plan == []
      ensures |plan| <= |old(plan)| && (n < count ==> |plan| < |old(plan)|)
    {
      n := count;
      if plan != [] {
        if plan[0] < n {
          n := plan[0];
        }
        plan := plan[1..];
      }
    }

    method Write(lba: nat, s: seq<Sector>) returns (ok: bool, ghost n: nat)
      requires lba + |s| <= sectors.Length
      modifies this`plan, sectors
      ensures n <= |s| && (ok <==> n == |s|)
      ensures sectors[..] == Replaced(old(sectors[..]), lba, s[..n])
      ensures old(plan) == [] ==> ok && plan == []
      ensures |plan| <= |old(plan)| && (!ok ==> |plan| < |old(plan)|)
    {
      var m := Moves(|s|);
      var i := 0;
      while i < m
        invariant i <= m
        modifies sectors
        invariant forall x :: 0 <= x < sectors.Length ==>
          sectors[x] == if lba <= x < lba + i then s[x - lba] else old(sectors[x])
      {
        sectors[lba + i] := s[i];
        i := i + 1;
      }
      ok, n := m == |s|, m;
    }

    method Read(lba: nat, count: nat, into: seq<Sector>) returns (ok: bool, s: seq<Sector>)
      requires lba + count <= sectors.Length && |into| == count
      modifies this`plan
      ensures |s| == count && (ok ==> s == sectors[lba..lba + count])
      ensures old(plan) == [] ==> ok && plan == []
    {
      var m := Moves(count);
      s := sectors[lba..lba + m] + into[m..];
      ok := m == count;
    }
  }

  // ---------------------------------------------------------------------
  // A slot
  // ---------------------------------------------------------------------

  function Zeros(count: nat): (s: seq<Sector>)
    ensures |s| == count
  {
    seq(count, _ => Zero())
  }

  /** Page p given the base aligned, with count sectors from off on zeroed, valid and dirty. */
  function Stored(p: Page, aligned: nat, off: nat, count: nat, now: nat): Page
    requires |p.data| == SECTORS && off + count <= SECTORS
  {
    Page(aligned, p.valid + Span(off, count), p.dirty + Span(off, count), Replaced(p.data, off, Zeros(count)), now,
        p.locked)
  }

  /** A store zeroes sectors in place, or takes the slot over from another page
      once that is flushed; if the flush fails the slot is unchanged. */
  ghost predicate StoreDid(disk: seq<Sector>, d: seq<Sector>, o: Page, v: Page, lba: nat, count: nat, now: nat,
      ok: bool)
    requires |o.data| == SECTORS && count <= Room(lba)
  {
    var aligned := PageLba(lba);
    && OnlyDirty(disk, d, o)
    && (!ok ==> v == o)
    && (ok && o.base == aligned ==> d == disk && v == Stored(o, aligned, lba - aligned, count, now))
    && (ok && o.base != aligned ==> WrittenTo(disk, d, o, SECTORS))
    && (ok && o.base != aligned ==> v == Stored(o.(dirty := {}, valid := {}), aligned, lba - aligned, count, now))
  }

  /** A reload flushes the slot and then shows the page as it is on the disk; if
      the flush fails the slot is unchanged, if the read fails it is empty. */
  ghost predicate ReloadDid(disk: seq<Sector>, d: seq<Sector>, o: Page, v: Page, aligned: nat, now: nat, ok: bool)
    requires |o.data| == SECTORS && aligned + SECTORS <= |d|
  {
    && OnlyDirty(disk, d, o)
    && (ok || v != o ==> WrittenTo(disk, d, o, SECTORS))
    && (ok ==> v == Page(aligned, All(), {}, d[aligned..aligned + SECTORS], now, o.locked))
    && (!ok && v != o ==> v == Page(aligned, {}, {}, v.data, o.time, o.locked) && |v.data| == SECTORS)
  }

  /** A slot that was flushed for the page at aligned, which then could not be read. */
  ghost predicate Emptied(o: Page, v: Page, aligned: nat) {
    v == Page(aligned, {}, {}, v.data, o.time, o.locked)
  }

  class Slot {
    var base: nat
    var valid: set<nat>
    var dirty: set<nat>
    var data: seq<Sector>
    var timestamp: nat
    var locked: bool

    constructor (base: nat, data: seq<Sector>)
      ensures View() == Page(base, {}, {}, data, 0, false)
    {
      this.base, this.data := base, data;
      valid, dirty, timestamp, locked := {}, {}, 0, false;
    }

    ghost function View(): Page
      reads this
    {
      Page(base, valid, dirty, data, timestamp, locked)
    }

    predicate Match(aligned: nat)
      reads this
    {
      valid != {} && base == aligned
    }

    /** Writes each run of dirty sectors with one command. */
    method Flush(ide: Ide) returns (ok: bool)
      requires PageOk(View(), ide.sectors.Length)
      modifies this`dirty, ide`plan, ide.sectors
      ensures OnlyDirty(old(ide.sectors[..]), ide.sectors[..], old(View()))
      ensures ok ==> View() == old(View()).(dirty := {})
      ensures ok ==> WrittenTo(old(ide.sectors[..]), ide.sectors[..], old(View()), SECTORS)
      ensures !ok ==> View() == old(View())
      ensures old(ide.plan) == [] ==> ok && ide.plan == []
      ensures |ide.plan| <= |old(ide.plan)| && (!ok ==> |ide.plan| < |old(ide.plan)|)
    {
      hide WrittenTo, OnlyDirty, PageOk, Replaced, Span, PageLba, Room, Zeros, All, Stored;
      ghost var p := View();
      PageBounds(p, ide.sectors.Length);
      ghost var was := ide.sectors[..];
      WrittenNothing(was, p);
      if dirty == {} {
        NothingDirty(was, p);
        return true;
      }
      var head, i := 0, 0;
      while i <= 8
        invariant 0 <= head <= i <= 9 && (i == 9 ==> head == 9) && (i == 8 ==> head <= 8)
        invariant View() == old(View()) == p
        invariant forall k :: head <= k < i ==> k in dirty
        invariant WrittenTo(was, ide.sectors[..], p, head)
        invariant old(ide.plan) == [] ==> ide.plan == []
        invariant |ide.plan| <= |old(ide.plan)|
      {
        ghost var now := ide.sectors[..];
        if i !in dirty {
          if head != i {
            var done: bool;
            ghost var n: nat;
            done, n := ide.Write(base + head, data[head..i]);
            RunWritten(was, now, ide.sectors[..], p, head, i, n);
            if !done {
              return false;
            }
          }
          SkipClean(was, ide.sectors[..], p, i);
          head := i + 1;
        }
        i := i + 1;
      }
      WrittenAll(was, ide.sectors[..], p, head);
      dirty := {};
      return true;
    }

    /** Flushes the slot and reads a whole page into it. */
    method Reload(ide: Ide, aligned: nat, now: nat) returns (ok: bool)
      requires PageOk(View(), ide.sectors.Length) && aligned % SECTORS == 0 && aligned + SECTORS <= ide.sectors.Length
      modifies this`base, this`valid, this`dirty, this`data, this`timestamp, ide`plan, ide.sectors
      ensures ReloadDid(old(ide.sectors[..]), ide.sectors[..], old(View()), View(), aligned, now, ok)
      ensures old(ide.plan) == [] ==> ok && ide.plan == []
    {
      hide WrittenTo, OnlyDirty, PageOk, Replaced, Span, PageLba, Room, Zeros, All, Stored;
      PageBounds(View(), ide.sectors.Length);
      ok := Flush(ide);
      if !ok {
        return;
      }
      valid := {};
      base := aligned;
      ok, data := ide.Read(base, SECTORS, data);
      if !ok {
        return;
      }
      valid := All();
      timestamp := now;
    }

    method Load(ide: Ide, now: nat) returns (ok: bool)
      requires PageOk(View(), ide.sectors.Length) && valid != {}
      modifies this`base, this`valid, this`dirty, this`data, this`timestamp, ide`plan, ide.sectors
      ensures old(valid) == All() ==> ok && View() == old(View()) && ide.sectors[..] == old(ide.sectors[..])
      ensures old(valid) != All() ==>
        ReloadDid(old(ide.sectors[..]), ide.sectors[..], old(View()), View(), old(base), now, ok)
      ensures old(ide.plan) == [] ==> ok && ide.plan == []
    {
      hide WrittenTo, OnlyDirty, PageOk, Replaced, Span, PageLba, Room, Zeros, All, Stored;
      PageBounds(View(), ide.sectors.Length);
      NothingChanges(ide.sectors[..], View());
      if valid == All() {
        return true;
      }
      ok := Reload(ide, base, now);
    }

    /** Zeroes the sectors asked for and marks them valid and dirty. */
    method Store(ide: Ide, lba: nat, count: nat, now: nat) returns (ok: bool)
      requires PageOk(View(), ide.sectors.Length) && 0 < count <= Room(lba)
      modifies this`base, this`valid, this`dirty, this`data, this`timestamp, ide`plan, ide.sectors
      ensures StoreDid(old(ide.sectors[..]), ide.sectors[..], old(View()), View(), lba, count, now, ok)
      ensures old(ide.plan) == [] ==> ok && ide.plan == []
    {
      hide WrittenTo, OnlyDirty, PageOk, Replaced, Span, PageLba, Room, Zeros, All, Stored;
      PageBounds(View(), ide.sectors.Length);
      RoomIs(lba, count);
      NothingChanges(ide.sectors[..], View());
      var aligned := PageLba(lba);
      ghost var p := View();
      if aligned != base {
        ok := Flush(ide);
        if !ok {
          return;
        }
        valid := {};
        base := aligned;
        p := p.(dirty := {}, valid := {});
      }
      var off := lba - base;
      var i := 0;
      SpanEmpty(off, dirty);
      ghost var d := ide.sectors[..];
      while i < count
        invariant i <= count
        modifies this`dirty
        invariant View() == p.(base := aligned, dirty := p.dirty + Span(off, i))
      {
        SpanNext(off, i, dirty, p.dirty);
        dirty := dirty + {off + i};
        i := i + 1;
      }
      data := Replaced(data, off, Zeros(count));
      valid := valid + dirty;
      timestamp := now;
      StoredIs(p, aligned, off, count, now);
      assert ide.sectors[..] == d;
      return true;
    }
  }

  lemma StoredIs(p: Page, aligned: nat, off: nat, count: nat, now: nat)
    requires |p.data| == SECTORS && off + count <= SECTORS && p.dirty <= p.valid
    ensures Page(aligned, p.valid + (p.dirty + Span(off, count)), p.dirty + Span(off, count),
        Replaced(p.data, off, Zeros(count)), now, p.locked)
      == Stored(p, aligned, off, count, now)
  {
  }

  lemma SpanEmpty(off: nat, d: set<nat>)
    ensures d + Span(off, 0) == d
  {
  }

  lemma SpanNext(off: nat, i: nat, d: set<nat>, d0: set<nat>)
    requires d == d0 + Span(off, i)
    ensures d + {off + i} == d0 + Span(off, i + 1)
  {
  }

  lemma RoomIs(lba: nat, count: nat)
    requires count <= Room(lba)
    ensures PageLba(lba) <= lba && PageLba(lba) % SECTORS == 0
    ensures lba - PageLba(lba) + count <= SECTORS
    ensures SECTORS == 8
  {
  }

  lemma PageBounds(p: Page, size: nat)
    requires PageOk(p, size)
    ensures |p.data| == SECTORS == 8 && p.dirty <= p.valid
    ensures p.valid != {} ==> p.base + SECTORS <= size && p.base % SECTORS == 0
    ensures forall k :: k in p.dirty ==> k < 8
    ensures p.dirty != {} ==> p.valid != {}
  {
  }

  lemma NothingChanges(disk: seq<Sector>, p: Page)
    ensures OnlyDirty(disk, disk, p)
  {
  }

  lemma WrittenNothing(disk: seq<Sector>, p: Page)
    requires |p.data| == SECTORS
    ensures WrittenTo(disk, disk, p, 0) && OnlyDirty(disk, disk, p)
  {
  }

  lemma NothingDirty(disk: seq<Sector>, p: Page)
    requires |p.data| == SECTORS && p.dirty == {}
    ensures WrittenTo(disk, disk, p, SECTORS) && p == p.(dirty := {})
  {
  }

  lemma RunWritten(disk: seq<Sector>, d: seq<Sector>, e: seq<Sector>, p: Page, head: nat, i: nat, n: nat)
    requires |p.data| == SECTORS && head < i <= SECTORS && n <= i - head && p.base + SECTORS <= |disk|
    requires WrittenTo(disk, d, p, head) && |d| == |disk|
    requires forall k :: head <= k < i ==> k in p.dirty
    requires e == Replaced(d, p.base + head, p.data[head..i][..n])
    ensures OnlyDirty(disk, e, p)
    ensures n == i - head ==> WrittenTo(disk, e, p, i)
  {
    forall x: nat | x < |disk|
      ensures e[x] == if p.base + head <= x < p.base + head + n then p.data[x - p.base] else d[x]
    {
    }
    forall x: nat | x < |disk| && p.base + head <= x < p.base + i ensures Dirty(p, x) {
      assert x - p.base in p.dirty;
    }
  }

  lemma SkipClean(disk: seq<Sector>, d: seq<Sector>, p: Page, i: nat)
    requires |p.data| == SECTORS && i !in p.dirty && WrittenTo(disk, d, p, i)
    ensures WrittenTo(disk, d, p, i + 1)
  {
  }

  lemma WrittenAll(disk: seq<Sector>, d: seq<Sector>, p: Page, n: nat)
    requires |p.data| == SECTORS && n >= SECTORS && WrittenTo(disk, d, p, n)
    ensures WrittenTo(disk, d, p, SECTORS) && OnlyDirty(disk, d, p)
  {
  }

  // ---------------------------------------------------------------------
  // The cache
  // ---------------------------------------------------------------------

  /** Got: the slot, locked for the caller. Failed: a disk command failed, and the
      slot stays locked. Blocked: the slot of the page is locked by someone else,
      whom the caller waits for. Busy: no slot is free, so the caller sleeps and retries. */
  datatype Answer = Got(index: nat) | Failed(index: nat) | Blocked(index: nat) | Busy

  class DiskCache {
    const ide: Ide
    const table: seq<Slot>
    ghost var content: seq<Sector>

    ghost function Pages(): (p: seq<Page>)
      reads table
      ensures |p| == |table| && forall i :: 0 <= i < |table| ==> p[i] == table[i].View()
    {
      seq(|table|, i requires 0 <= i < |table| reads table => table[i].View())
    }

    ghost predicate Separate() {
      forall i, j :: 0 <= i < j < |table| ==> table[i] != table[j]
    }

    /** The slots over the disk show the plain sectors of content. */
    ghost predicate Valid()
      reads this, ide, ide.sectors, table
    {
      Separate() && Refines(Pages(), ide.sectors[..], content)
    }

    constructor (ide: Ide, table: seq<Slot>)
      requires forall i, j :: 0 <= i < j < |table| ==> table[i] != table[j]
      requires forall s :: s in table ==> s.valid == {} && s.dirty == {} && |s.data| == SECTORS
      ensures Valid() && this.ide == ide && this.table == table && content == ide.sectors[..]
    {
      this.ide, this.table := ide, table;
      content := ide.sectors[..];
      new;
      assert forall i :: 0 <= i < |table| ==> table[i] in table;
    }

    lemma Parts(i: nat)
      requires Valid() && i < |table|
      ensures Separate() && Refines(Pages(), ide.sectors[..], content) && |content| == ide.sectors.Length
      ensures PageOk(table[i].View(), ide.sectors.Length) && table[i] in table
      ensures forall j :: 0 <= j < |table| && j != i ==> table[j] != table[i]
      ensures Pages()[i] == table[i].View()
      ensures |table[i].data| == SECTORS && (table[i].valid != {} ==> NoOther(Pages(), i, table[i].base))
    {
      PageParts(Pages(), ide.sectors[..], content, i);
    }

    lemma ViewIs(i: nat)
      requires i < |table|
      ensures table[i].View() ==
        Page(table[i].base, table[i].valid, table[i].dirty, table[i].data, table[i].timestamp, table[i].locked)
    {
    }

    lemma ViewsAre()
      ensures forall i :: 0 <= i < |table| ==>
        table[i].View() ==
        Page(table[i].base, table[i].valid, table[i].dirty, table[i].data, table[i].timestamp, table[i].locked)
    {
    }

    lemma Shown()
      requires Valid()
      ensures Refines(Pages(), ide.sectors[..], content)
    {
    }

    /** Only slot i changed. */
    lemma PagesOne(p: seq<Page>, i: nat)
      requires |p| == |table| && i < |table| && forall j :: 0 <= j < |table| && j != i ==> table[j].View() == p[j]
      ensures Pages() == p[i := table[i].View()]
    {
    }

    lemma BecomesValid()
      requires Separate() && Refines(Pages(), ide.sectors[..], content)
      ensures Valid()
    {
    }

    /** Slot i zeroes the sectors, after a flush if it held another page. */
    method StoreAt(i: nat, lba: nat, count: nat, now: nat) returns (ok: bool)
      requires Valid() && i < |table| && 0 < count <= Room(lba) && PageLba(lba) + SECTORS <= |content|
      requires NoOther(Pages(), i, PageLba(lba))
      modifies table[i], ide`plan, ide.sectors, this`content
      ensures Valid() && ide.sectors.Length == |content| == |old(content)|
      ensures content == if ok then Replaced(old(content), lba, Zeros(count)) else old(content)
      ensures ok ==> table[i].base == PageLba(lba)
      ensures ok ==> table[i].timestamp == now
      ensures ok ==>
        table[i].valid == (if old(table[i].base) == PageLba(lba) then old(table[i].valid) else {})
          + Span(lba - PageLba(lba), count)
      ensures ok ==>
        table[i].dirty == (if old(table[i].base) == PageLba(lba) then old(table[i].dirty) else {})
          + Span(lba - PageLba(lba), count)
      ensures !ok ==> table[i].View() == old(table[i].View())
      ensures OnlyDirty(old(ide.sectors[..]), ide.sectors[..], old(table[i].View()))
      ensures table[i].locked == old(table[i].locked)
      ensures old(ide.plan) == [] ==> ok && ide.plan == []
    {
      hide *;
      Parts(i);
      ViewIs(i);
      RoomIs(lba, count);
      ghost var p := Pages();
      ghost var disk := ide.sectors[..];
      ok := table[i].Store(ide, lba, count, now);
      PagesOne(p, i);
      ViewIs(i);
      StoreKeeps(p, disk, ide.sectors[..], content, i, table[i].View(), lba, count, now, ok);
      if ok {
        content := Replaced(content, lba, Zeros(count));
      }
      BecomesValid();
    }

    /** Slot i flushes and takes the page over from the disk. */
    method ReloadAt(i: nat, aligned: nat, now: nat) returns (ok: bool)
      requires Valid() && i < |table| && aligned % SECTORS == 0 && aligned + SECTORS <= |content|
      requires NoOther(Pages(), i, aligned)
      modifies table[i], ide`plan, ide.sectors
      ensures Valid() && ok ==>
        table[i].base == aligned && table[i].valid == All() && table[i].dirty == {} && table[i].timestamp == now
      ensures !ok ==> table[i].View() == old(table[i].View()) || Emptied(old(table[i].View()), table[i].View(), aligned)
      ensures OnlyDirty(old(ide.sectors[..]), ide.sectors[..], old(table[i].View()))
      ensures Valid() && table[i].locked == old(table[i].locked)
      ensures old(ide.plan) == [] ==> ok && ide.plan == []
    {
      hide *;
      Parts(i);
      ghost var p := Pages();
      ghost var disk := ide.sectors[..];
      ok := table[i].Reload(ide, aligned, now);
      PagesOne(p, i);
      ViewIs(i);
      ReloadKeeps(p, disk, ide.sectors[..], content, i, table[i].View(), aligned, now, ok);
      BecomesValid();
    }

    /** Slot i, which holds part of the page, shows all of it. */
    method LoadAt(i: nat, now: nat) returns (ok: bool)
      requires Valid() && i < |table| && table[i].valid != {}
      modifies table[i], ide`plan, ide.sectors
      ensures Valid() && ok ==> table[i].base == old(table[i].base) && table[i].valid == All()
      ensures old(table[i].valid) == All() ==> ok && table[i].View() == old(table[i].View())
      ensures old(table[i].valid) != All() && ok ==> table[i].dirty == {} && table[i].timestamp == now
      ensures !ok ==>
        table[i].View() == old(table[i].View()) || Emptied(old(table[i].View()), table[i].View(), old(table[i].base))
      ensures OnlyDirty(old(ide.sectors[..]), ide.sectors[..], old(table[i].View()))
      ensures Valid() && table[i].locked == old(table[i].locked)
      ensures old(ide.plan) == [] ==> ok && ide.plan == []
    {
      hide *;
      Parts(i);
      ViewIs(i);
      PageBounds(table[i].View(), ide.sectors.Length);
      ghost var p := Pages();
      ghost var disk := ide.sectors[..];
      ghost var whole := table[i].valid == All();
      ok := table[i].Load(ide, now);
      PagesOne(p, i);
      ViewIs(i);
      if whole {
        assert Pages() == p;
        NothingChanges(disk, p[i]);
      } else {
        ReloadKeeps(p, disk, ide.sectors[..], content, i, table[i].View(), p[i].base, now, ok);
      }
      BecomesValid();
    }

    /** No slot is a better choice to take over than slot i: it is free, and the first of
        those used longest ago. */
    ghost predicate Oldest(i: nat)
      requires i < |table|
      reads table
    {
      !table[i].locked && forall j :: 0 <= j < |table| && !table[j].locked ==>
        table[i].timestamp < table[j].timestamp || (i <= j && table[i].timestamp == table[j].timestamp)
    }

    /** One pass of the loop that looks for the page of sector lba. */
    method Get(lba: nat, count: nat, write: bool, now: nat) returns (answer: Answer)
      requires Valid() && 0 < count <= Room(lba) && PageLba(lba) + SECTORS <= |content|
      modifies table, ide`plan, ide.sectors, this`content
      ensures Valid() && |content| == |old(content)|
      ensures content == if answer.Got? && write then Replaced(old(content), lba, Zeros(count)) else old(content)
      ensures answer.Got? || answer.Failed? ==> answer.index < |table| && table[answer.index].locked
      ensures answer.Got? || answer.Failed? ==> !old(table[answer.index].locked)
      ensures answer.Got? ==> table[answer.index].base == PageLba(lba)
      ensures answer.Got? && write ==> table[answer.index].timestamp == now
      ensures answer.Got? && write ==>
        table[answer.index].valid ==
          (if old(table[answer.index].base) == PageLba(lba) then old(table[answer.index].valid) else {})
          + Span(lba - PageLba(lba), count)
      ensures answer.Got? && write ==>
        table[answer.index].dirty ==
          (if old(table[answer.index].base) == PageLba(lba) then old(table[answer.index].dirty) else {})
          + Span(lba - PageLba(lba), count)
      ensures answer.Got? && !write ==> table[answer.index].valid == All()
      ensures answer.Got? && !write ==>
        if old(table[answer.index].Match(PageLba(lba))) && old(table[answer.index].valid) == All()
        then table[answer.index].View() == old(table[answer.index].View()).(locked := true)
        else table[answer.index].dirty == {} && table[answer.index].timestamp == now
      // only what the slot had dirty was written to the disk
      ensures answer.Got? || answer.Failed? ==>
        OnlyDirty(old(ide.sectors[..]), ide.sectors[..], old(table[answer.index].View()))
      ensures answer.Failed? ==>
        var o := old(table[answer.index].View()).(locked := true);
        table[answer.index].View() == o || (!write && Emptied(o, table[answer.index].View(), PageLba(lba)))
      ensures answer.Blocked? ==> answer.index < |table| && table[answer.index].locked
      ensures answer.Blocked? ==> table[answer.index].Match(PageLba(lba))
      ensures answer.Busy? ==> forall j :: 0 <= j < |table| ==> table[j].locked && !table[j].Match(PageLba(lba))
      ensures answer.Blocked? || answer.Busy? ==> Pages() == old(Pages()) && ide.sectors[..] == old(ide.sectors[..])
      ensures (answer.Got? || answer.Failed?) && !old(table[answer.index].Match(PageLba(lba))) ==>
        old(Oldest(answer.index))
      ensures forall j :: 0 <= j < |table| && !((answer.Got? || answer.Failed?) && j == answer.index) ==>
        table[j].View() == old(table[j].View())
      ensures old(ide.plan) == [] ==> !answer.Failed?
    {
      hide *;
      var aligned := PageLba(lba);
      RoomIs(lba, count);
      Distinct();
      var target: int := -1;
      var hit: int := -1;
      var index: nat := 0;
      while index < |table|
        invariant index <= |table| && -1 <= target < index && hit == -1
        invariant forall j :: 0 <= j < index ==> !table[j].Match(aligned)
        invariant target >= 0 ==> !table[target].locked
        invariant target < 0 ==> forall j :: 0 <= j < index ==> table[j].locked
        invariant forall j :: 0 <= j < index && !table[j].locked ==>
          table[target].timestamp < table[j].timestamp
            || (target <= j && table[target].timestamp == table[j].timestamp)
        modifies {}
      {
        var cur := table[index];
        if cur.Match(aligned) {
          hit := index;
          break;
        }
        if !cur.locked {
          if target < 0 || table[target].timestamp > cur.timestamp {
            target := index;
          }
        }
        index := index + 1;
      }
      if hit >= 0 {
        if table[hit].locked {
          return Blocked(hit);
        }
        MatchIs(hit, aligned);
        ViewIs(hit);
        ghost var disk, o := ide.sectors[..], table[hit].View();
        Lock(hit);
        ViewIs(hit);
        var ok: bool;
        if write {
          ok := StoreAt(hit, lba, count, now);
        } else {
          ok := LoadAt(hit, now);
        }
        LockedToo(disk, ide.sectors[..], o);
        return if ok then Got(hit) else Failed(hit);
      }
      if target >= 0 {
        NoMatch(target, aligned);
        OldestIs(target);
        ViewIs(target);
        ghost var disk, o := ide.sectors[..], table[target].View();
        Lock(target);
        ViewIs(target);
        var ok: bool;
        if write {
          ok := StoreAt(target, lba, count, now);
        } else {
          ok := ReloadAt(target, aligned, now);
        }
        LockedToo(disk, ide.sectors[..], o);
        return if ok then Got(target) else Failed(target);
      }
      return Busy;
    }

    lemma OldestIs(i: nat)
      requires i < |table| && !table[i].locked
      requires forall j :: 0 <= j < |table| && !table[j].locked ==>
        table[i].timestamp < table[j].timestamp || (i <= j && table[i].timestamp == table[j].timestamp)
      ensures Oldest(i)
    {
    }

    lemma Distinct()
      requires Valid()
      ensures forall i, j :: 0 <= i < |table| && 0 <= j < |table| && i != j ==> table[i] != table[j]
      ensures |content| == ide.sectors.Length
    {
    }

    lemma MatchIs(i: nat, aligned: nat)
      requires Valid() && i < |table| && table[i].Match(aligned)
      ensures table[i].valid != {} && table[i].base == aligned && NoOther(Pages(), i, aligned)
    {
      Parts(i);
    }

    lemma NoMatch(i: nat, aligned: nat)
      requires Valid() && i < |table| && forall j :: 0 <= j < |table| ==> !table[j].Match(aligned)
      ensures NoOther(Pages(), i, aligned)
    {
    }

    method Lock(i: nat)
      requires Valid() && i < |table|
      modifies (table[i] as Slot)`locked
      ensures Valid() && Pages() == old(Pages())[i := old(table[i].View()).(locked := true)]
      ensures table[i].locked
      ensures forall base :: NoOther(old(Pages()), i, base) ==> NoOther(Pages(), i, base)
    {
      hide *;
      SetLocked(i, true);
    }

    method SetLocked(i: nat, locked: bool)
      requires Valid() && i < |table|
      modifies (table[i] as Slot)`locked
      ensures Valid() && Pages() == old(Pages())[i := old(table[i].View()).(locked := locked)]
      ensures table[i].locked == locked
      ensures forall base :: NoOther(old(Pages()), i, base) ==> NoOther(Pages(), i, base)
    {
      hide *;
      Parts(i);
      ViewIs(i);
      ghost var p := Pages();
      ghost var d := ide.sectors[..];
      table[i].locked := locked;
      ViewIs(i);
      PagesOne(p, i);
      MarkKeeps(p, d, content, i, {}, locked);
      assert p[i].dirty + {} == p[i].dirty;
      forall base: nat | NoOther(p, i, base) ensures NoOther(Pages(), i, base) {
        StillNoOther(p, Pages(), i, base);
      }
      BecomesValid();
    }

    /** Marks sectors of a locked slot dirty; the caller is about to change them. */
    method Upgrade(i: nat, lba: nat, count: nat)
      requires Valid() && i < |table| && table[i].locked
      requires PageLba(lba) == table[i].base && 0 < count <= Room(lba)
      requires Span(lba - PageLba(lba), count) <= table[i].valid
      modifies (table[i] as Slot)`dirty
      ensures Valid()
      ensures table[i].dirty == old(table[i].dirty) + Span(lba - PageLba(lba), count)
    {
      hide *;
      Parts(i);
      ViewIs(i);
      RoomIs(lba, count);
      ghost var p := Pages();
      ghost var d := ide.sectors[..];
      var off := lba - table[i].base;
      var n := 0;
      SpanEmpty(off, table[i].dirty);
      while n < count
        invariant n <= count
        invariant table[i].dirty == p[i].dirty + Span(off, n)
        modifies (table[i] as Slot)`dirty
      {
        SpanNext(off, n, table[i].dirty, p[i].dirty);
        table[i].dirty := table[i].dirty + {off + n};
        n := n + 1;
      }
      ViewIs(i);
      PagesOne(p, i);
      assert ide.sectors[..] == d;
      MarkKeeps(p, d, content, i, Span(off, count), table[i].locked);
      BecomesValid();
    }

    /** A caller changes one sector of a slot it has locked and marked dirty. */
    method WriteSector(i: nat, k: nat, s: Sector)
      requires Valid() && i < |table| && table[i].locked && k in table[i].dirty
      modifies (table[i] as Slot)`data, this`content
      ensures Valid()
      ensures table[i].base + k < |old(content)| && content == old(content)[table[i].base + k := s]
    {
      hide *;
      Parts(i);
      ViewIs(i);
      ghost var p := Pages();
      ghost var d := ide.sectors[..];
      PageBounds(p[i], ide.sectors.Length);
      SectorIs(p[i].data, k, s);
      SectorIs(content, table[i].base + k, s);
      OneSpan(k, p[i].dirty, p[i].valid);
      table[i].data := table[i].data[k := s];
      ViewIs(i);
      PagesOne(p, i);
      assert ide.sectors[..] == d;
      WriteKeeps(p, d, content, i, table[i].View(), k, [s]);
      content := content[table[i].base + k := s];
      BecomesValid();
    }

    /** What a caller reads in a slot is the content of the sector. */
    lemma ReadsContent(i: nat, k: nat)
      requires Valid() && i < |table| && k in table[i].valid
      ensures k < |table[i].data| && table[i].base + k < |content|
      ensures table[i].data[k] == content[table[i].base + k]
    {
      Parts(i);
      PageParts(Pages(), ide.sectors[..], content, i);
    }

    /** Gives the slot back, after a flush if asked for. */
    method Relax(i: nat, flush: bool)
      requires Valid() && i < |table| && table[i].locked
      modifies table[i], ide`plan, ide.sectors
      ensures Valid() && !table[i].locked
      ensures flush && old(ide.plan) == [] ==> table[i].dirty == {}
      ensures !flush ==> table[i].dirty == old(table[i].dirty) && ide.sectors[..] == old(ide.sectors[..])
      ensures table[i].View() == old(table[i].View()).(locked := false, dirty := table[i].dirty)
      ensures table[i].dirty == {} || table[i].dirty == old(table[i].dirty)
      ensures OnlyDirty(old(ide.sectors[..]), ide.sectors[..], old(table[i].View()))
    {
      hide *;
      Parts(i);
      ViewIs(i);
      NothingChanges(ide.sectors[..], table[i].View());
      if flush && table[i].dirty != {} {
        var ok := FlushAt(i);
      }
      ViewIs(i);
      SetLocked(i, false);
      ViewIs(i);
    }

    method FlushAt(i: nat) returns (ok: bool)
      requires Valid() && i < |table|
      modifies (table[i] as Slot)`dirty, ide`plan, ide.sectors
      ensures Valid()
      ensures ok ==> table[i].dirty == {}
      ensures !ok ==> table[i].dirty == old(table[i].dirty)
      ensures old(ide.plan) == [] ==> ok && ide.plan == []
      ensures OnlyDirty(old(ide.sectors[..]), ide.sectors[..], old(table[i].View()))
      ensures |ide.plan| <= |old(ide.plan)| && (!ok ==> |ide.plan| < |old(ide.plan)|)
    {
      hide *;
      Parts(i);
      ViewIs(i);
      ghost var p := Pages();
      ghost var disk := ide.sectors[..];
      ok := table[i].Flush(ide);
      ViewIs(i);
      PagesOne(p, i);
      if ok {
        FlushKeeps(p, disk, ide.sectors[..], content, i);
      } else {
        HalfFlushed(p, disk, ide.sectors[..], content, i);
        assert Pages() == p;
      }
      BecomesValid();
    }

    /** Flushes every slot that is not locked; one that fails does not stop the others.
        For every slot left dirty a command failed. */
    method Flush()
      requires Valid()
      modifies table, ide`plan, ide.sectors
      ensures Valid()
      ensures forall j :: 0 <= j < |table| ==> table[j].View() == old(table[j].View()).(dirty := table[j].dirty)
      ensures forall j :: 0 <= j < |table| ==>
        table[j].dirty == old(table[j].dirty) || (!table[j].locked && table[j].dirty == {})
      ensures LeftDirty(Pages(), |table|) + |ide.plan| <= |old(ide.plan)|
      ensures Unwritten(old(ide.sectors[..]), ide.sectors[..], old(Pages()))
      ensures old(ide.plan) == [] ==> forall j :: 0 <= j < |table| && !table[j].locked ==> table[j].dirty == {}
      ensures old(ide.plan) == [] ==> forall x: nat :: x < |content| && !LockedDirty(old(Pages()), x) ==>
        ide.sectors[x] == content[x]
    {
      hide *;
      var index: nat := 0;
      Distinct();
      ViewsAre();
      NoneLeft(Pages());
      NoneWritten(ide.sectors[..], Pages());
      while index < |table|
        invariant index <= |table| && Valid()
        invariant forall j :: 0 <= j < |table| ==> table[j].View() == old(table[j].View()).(dirty := table[j].dirty)
        invariant forall j :: 0 <= j < |table| ==>
          table[j].dirty == old(table[j].dirty) || (!table[j].locked && table[j].dirty == {})
        invariant forall j :: index <= j < |table| ==> table[j].dirty == old(table[j].dirty)
        invariant old(ide.plan) == [] ==> ide.plan == []
        invariant old(ide.plan) == [] ==> forall j :: 0 <= j < index && !table[j].locked ==> table[j].dirty == {}
        invariant LeftDirty(Pages(), index) + |ide.plan| <= |old(ide.plan)|
        invariant Unwritten(old(ide.sectors[..]), ide.sectors[..], old(Pages()))
      {
        ViewsAre();
        ghost var p := Pages();
        if !table[index].locked {
          ghost var d := ide.sectors[..];
          var ok := FlushAt(index);
          ViewsAre();
          OneWritten(old(ide.sectors[..]), d, ide.sectors[..], old(Pages()), index);
          PagesOne(p, index);
          LeftElsewhere(p, Pages(), index);
        }
        LeftNext(Pages(), index);
        ViewsAre();
        index := index + 1;
      }
      ViewsAre();
      Shown();
      forall x: nat | old(ide.plan) == [] && x < |content| && !LockedDirty(old(Pages()), x)
        ensures x < ide.sectors.Length && ide.sectors[x] == content[x]
      {
        FlushedHere(old(Pages()), Pages(), ide.sectors[..], content, x);
      }
    }
  }

  /** How many of the first n slots are not locked, and dirty. */
  ghost function LeftDirty(pages: seq<Page>, n: nat): nat
    requires n <= |pages|
  {
    if n == 0 then 0 else LeftDirty(pages, n - 1) + if !pages[n - 1].locked && pages[n - 1].dirty != {} then 1 else 0
  }

  lemma NoneLeft(pages: seq<Page>)
    ensures LeftDirty(pages, 0) == 0
  {
  }

  lemma LeftNext(pages: seq<Page>, n: nat)
    requires n < |pages|
    ensures LeftDirty(pages, n + 1) ==
      LeftDirty(pages, n) + if !pages[n].locked && pages[n].dirty != {} then 1 else 0
  {
  }

  lemma {:induction false} LeftElsewhere(p: seq<Page>, q: seq<Page>, n: nat)
    requires n <= |p| == |q| && forall j :: 0 <= j < n ==> q[j] == p[j]
    ensures LeftDirty(q, n) == LeftDirty(p, n)
  {
    if n > 0 {
      LeftElsewhere(p, q, n - 1);
    }
  }

  /** A locked slot has sector x dirty. */
  ghost predicate LockedDirty(pages: seq<Page>, x: nat) {
    exists j :: 0 <= j < |pages| && pages[j].locked && Dirty(pages[j], x)
  }

  /** What no locked slot has dirty is on the disk after a flush. */
  lemma FlushedHere(p: seq<Page>, q: seq<Page>, disk: seq<Sector>, content: seq<Sector>, x: nat)
    requires Refines(q, disk, content) && x < |content| && !LockedDirty(p, x) && |p| == |q|
    requires forall j :: 0 <= j < |q| ==> q[j] == p[j].(dirty := q[j].dirty)
    requires forall j :: 0 <= j < |q| ==> if q[j].locked then q[j].dirty == p[j].dirty else q[j].dirty == {}
    ensures x < |disk| && disk[x] == content[x]
  {
    forall j | 0 <= j < |q| ensures !Dirty(q[j], x) {
      assert q[j].locked ==> !Dirty(p[j], x);
    }
    assert NoneDirty(q, x);
  }

  lemma LockedToo(disk: seq<Sector>, d: seq<Sector>, o: Page)
    ensures OnlyDirty(disk, d, o.(locked := true)) <==> OnlyDirty(disk, d, o)
  {
    assert forall x :: Dirty(o.(locked := true), x) <==> Dirty(o, x);
  }

  /** A slot that is not locked has sector x dirty. */
  ghost predicate FreeDirty(pages: seq<Page>, x: nat) {
    exists j :: 0 <= j < |pages| && !pages[j].locked && Dirty(pages[j], x)
  }

  /** Sectors that no unlocked slot has dirty were not written. */
  ghost predicate Unwritten(disk: seq<Sector>, d: seq<Sector>, pages: seq<Page>) {
    |d| == |disk| && forall x: nat :: x < |disk| && !FreeDirty(pages, x) ==> d[x] == disk[x]
  }

  lemma NoneWritten(disk: seq<Sector>, pages: seq<Page>)
    ensures Unwritten(disk, disk, pages)
  {
  }

  lemma OneWritten(disk: seq<Sector>, d: seq<Sector>, e: seq<Sector>, pages: seq<Page>, i: nat)
    requires Unwritten(disk, d, pages) && i < |pages| && !pages[i].locked && OnlyDirty(d, e, pages[i])
    ensures Unwritten(disk, e, pages)
  {
  }

  lemma SectorIs(c: seq<Sector>, x: nat, s: Sector)
    requires x < |c|
    ensures Replaced(c, x, [s]) == c[x := s]
  {
  }

  lemma OneSpan(k: nat, dirty: set<nat>, valid: set<nat>)
    requires k in dirty && dirty <= valid
    ensures dirty + Span(k, 1) == dirty && valid + Span(k, 1) == valid
  {
  }

  lemma StoreKeeps(pages: seq<Page>, disk: seq<Sector>, d: seq<Sector>, content: seq<Sector>, i: nat, v: Page, lba: nat,
      count: nat, now: nat, ok: bool)
    requires Refines(pages, disk, content) && i < |pages| && |pages[i].data| == SECTORS
    requires 0 < count <= Room(lba) && PageLba(lba) + SECTORS <= |content| && NoOther(pages, i, PageLba(lba))
    requires StoreDid(disk, d, pages[i], v, lba, count, now, ok)
    ensures lba + count <= |content| == |d|
    ensures Refines(pages[i := v], d, if ok then Replaced(content, lba, Zeros(count)) else content)
    ensures ok ==> v.base == PageLba(lba) && v.time == now
    ensures ok ==>
      v.valid == (if pages[i].base == PageLba(lba) then pages[i].valid else {}) + Span(lba - PageLba(lba), count)
    ensures ok ==>
      v.dirty == (if pages[i].base == PageLba(lba) then pages[i].dirty else {}) + Span(lba - PageLba(lba), count)
    ensures v.locked == pages[i].locked && (!ok ==> v == pages[i]) && OnlyDirty(disk, d, pages[i])
  {
    hide Refines, NoOther, WrittenTo, OnlyDirty, Replaced, Span, PageLba, Room;
    RoomIs(lba, count);
    PageParts(pages, disk, content, i);
    var o := pages[i];
    if !ok {
      HalfFlushed(pages, disk, d, content, i);
      assert pages[i := o] == pages;
    } else if o.base == PageLba(lba) {
      WriteKeeps(pages, disk, content, i, v, lba - PageLba(lba), Zeros(count));
    } else {
      FlushKeeps(pages, disk, d, content, i);
      var q := pages[i := o.(dirty := {})];
      var r := q[i := o.(dirty := {}, valid := {})];
      EmptyKeeps(q, d, content, i, o.(dirty := {}, valid := {}));
      StillNoOther(pages, r, i, PageLba(lba));
      PageParts(r, d, content, i);
      assert v.base == PageLba(lba);
      WriteKeeps(r, d, content, i, v, lba - PageLba(lba), Zeros(count));
      assert r[i := v] == pages[i := v];
    }
  }

  lemma StillNoOther(pages: seq<Page>, q: seq<Page>, i: nat, base: nat)
    requires NoOther(pages, i, base) && |q| == |pages|
    requires forall j :: 0 <= j < |q| && j != i ==> q[j] == pages[j]
    ensures NoOther(q, i, base)
  {
  }

  lemma ReloadKeeps(pages: seq<Page>, disk: seq<Sector>, d: seq<Sector>, content: seq<Sector>, i: nat, v: Page,
      aligned: nat, now: nat, ok: bool)
    requires Refines(pages, disk, content) && i < |pages| && |pages[i].data| == SECTORS
    requires aligned % SECTORS == 0 && aligned + SECTORS <= |d| && NoOther(pages, i, aligned)
    requires ReloadDid(disk, d, pages[i], v, aligned, now, ok)
    ensures Refines(pages[i := v], d, content)
    ensures ok ==> v.base == aligned && v.valid == All() && v.dirty == {} && v.time == now
    ensures v.locked == pages[i].locked && (!ok ==> v == pages[i] || Emptied(pages[i], v, aligned))
    ensures OnlyDirty(disk, d, pages[i])
  {
    hide Refines, NoOther, WrittenTo, OnlyDirty, All;
    var o := pages[i];
    if v == o && !ok {
      HalfFlushed(pages, disk, d, content, i);
      assert pages[i := o] == pages;
    } else {
      FlushKeeps(pages, disk, d, content, i);
      var q := pages[i := o.(dirty := {})];
      StillNoOther(pages, q, i, aligned);
      if ok {
        FillKeeps(q, d, content, i, v);
      } else {
        EmptyKeeps(q, d, content, i, v);
      }
      assert q[i := v] == pages[i := v];
    }
  }
}
