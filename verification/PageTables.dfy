/** One page table of the virtual space allocator (kernel/memory/vm.cpp).

    The unused entries of a page table form maximal runs.  A doubly linked list
    of those runs, ascending by size, is kept inside the unused entries
    themselves: the first entry of a run carries the link to the next run, the
    second the link to the previous one, the third the size, and all further
    entries their distance from the first.  The directory entry of the table
    carries the list head and a 4-bit rounding of the size of the largest run. */
module PageTables {
  import opened PhysicalMemory
  import opened PowersOfTwo

  const ENTRIES: nat := 0x200

  datatype Tag = OFF | SIZE | PREV | NEXT

  datatype Attributes = Attributes(write: bool, wt: bool, cd: bool, global: bool, pat: bool, xd: bool)

  datatype Pte = Pte(present: bool, user: bool, attr: Attributes, tag: Tag, valid: bool,
                     frame: nat, data: nat, preserve: bool, bypass: bool)

  datatype Block = Block(self: nat, next: nat, prev: nat, size: nat, nextValid: bool, prevValid: bool)

  datatype Option<+T> = None | Some(value: T)

  /** The entry maps nothing and is not reserved. */
  predicate Unused(e: Pte) {
    !e.present && !e.preserve
  }

  // ---------------------------------------------------------------------
  // Reading and writing one run
  // ---------------------------------------------------------------------

  /** The tag of entry i points at an entry of the table. */
  predicate Anchored(t: seq<Pte>, i: nat)
    requires i < |t|
  {
    match t[i].tag
    case OFF => t[i].data <= i
    case SIZE => 2 <= i
    case PREV => 1 <= i
    case NEXT => true
  }

  function Anchor(t: seq<Pte>, i: nat): nat
    requires i < |t| && Anchored(t, i)
  {
    match t[i].tag
    case OFF => i - t[i].data
    case SIZE => i - 2
    case PREV => i - 1
    case NEXT => i
  }

  /** BLOCK::get: the record of the run that entry i is part of.  Fields that
      the code does not assign keep their value from `was`. */
  function BlockGet(t: seq<Pte>, i: nat, was: Block): Block
    requires |t| == ENTRIES && i < |t| && Anchored(t, i)
  {
    var s := Anchor(t, i);
    var one := was.(self := s, next := t[s].data, nextValid := t[s].valid, prevValid := false, size := 1);
    if s + 1 == ENTRIES || !Unused(t[s + 1]) then one
    else
      var two := one.(prev := t[s + 1].data, prevValid := t[s + 1].valid, size := 2);
      if s + 2 == ENTRIES || !Unused(t[s + 2]) then two
      else two.(size := t[s + 2].data + 1)
  }

  /** What BLOCK::put leaves in the k-th entry of the run. */
  function Stamp(e: Pte, b: Block, k: nat): Pte {
    if k == 0 then e.(tag := NEXT, data := b.next % ENTRIES, valid := b.nextValid)
    else if k == 1 then e.(tag := PREV, data := b.prev % ENTRIES, valid := b.prevValid)
    else if k == 2 then e.(tag := SIZE, data := (b.size - 1) % ENTRIES, valid := true)
    else e.(tag := OFF, data := k % ENTRIES, valid := true)
  }

  function BlockPut(t: seq<Pte>, b: Block): (r: seq<Pte>)
    ensures |r| == |t|
  {
    seq(|t|, i requires 0 <= i < |t| =>
      if b.self <= i < b.self + b.size then Stamp(t[i], b, i - b.self) else t[i])
  }

  // ---------------------------------------------------------------------
  // The abstract picture: a list of runs
  // ---------------------------------------------------------------------

  datatype Run = Run(self: nat, size: nat) {
    predicate Has(i: int) { self <= i < self + size }
  }

  /** r is a nonempty stretch of unused entries that cannot be extended. */
  ghost predicate MaximalRun(t: seq<Pte>, r: Run) {
    && |t| == ENTRIES
    && 1 <= r.size && r.self + r.size <= ENTRIES
    && (forall i :: r.self <= i < r.self + r.size ==> Unused(t[i]))
    && (r.self == 0 || !Unused(t[r.self - 1]))
    && (r.self + r.size == ENTRIES || !Unused(t[r.self + r.size]))
  }

  /** The entries of r hold its record; a link that is absent is -1. */
  ghost predicate Written(t: seq<Pte>, r: Run, p: int, n: int) {
    && |t| == ENTRIES
    && 1 <= r.size && r.self + r.size <= ENTRIES
    && t[r.self].tag == NEXT && t[r.self].valid == (n >= 0) && (n >= 0 ==> t[r.self].data == n)
    && (r.size >= 2 ==>
          t[r.self + 1].tag == PREV && t[r.self + 1].valid == (p >= 0) && (p >= 0 ==> t[r.self + 1].data == p))
    && (r.size >= 3 ==> t[r.self + 2].tag == SIZE && t[r.self + 2].data == r.size - 1)
    && (forall i :: r.self + 3 <= i < r.self + r.size ==> t[i].tag == OFF && t[i].data == i - r.self)
  }

  function PrevOf(L: seq<Run>, k: nat): int
    requires k < |L|
  {
    if k == 0 then -1 else L[k - 1].self
  }

  function NextOf(L: seq<Run>, k: nat): int
    requires k < |L|
  {
    if k + 1 == |L| then -1 else L[k + 1].self
  }

  ghost predicate AllMaximal(t: seq<Pte>, L: seq<Run>) {
    forall k :: 0 <= k < |L| ==> MaximalRun(t, L[k])
  }

  ghost predicate WrittenAt(t: seq<Pte>, L: seq<Run>, k: nat)
    requires k < |L|
  {
    Written(t, L[k], PrevOf(L, k), NextOf(L, k))
  }

  ghost predicate AllWritten(t: seq<Pte>, L: seq<Run>) {
    forall k :: 0 <= k < |L| ==> WrittenAt(t, L, k)
  }

  ghost predicate Ascending(L: seq<Run>) {
    && (forall j, k :: 0 <= j < k < |L| ==> L[j].size <= L[k].size)
    && (forall j, k :: 0 <= j < k < |L| ==> L[j].self != L[k].self)
  }

  /** The table holds the list L: maximal runs, each once, ascending by size, with their links. */
  ghost predicate Chain(t: seq<Pte>, L: seq<Run>) {
    AllMaximal(t, L) && AllWritten(t, L) && Ascending(L)
  }

  ghost predicate InSome(L: seq<Run>, i: int) {
    exists k :: 0 <= k < |L| && L[k].Has(i)
  }

  /** Every unused entry is in some run of L, but for those in [lo, hi). */
  ghost predicate Covers(t: seq<Pte>, L: seq<Run>, lo: int, hi: int) {
    forall i :: 0 <= i < |t| && Unused(t[i]) ==> InSome(L, i) || lo <= i < hi
  }

  /** The tables differ in list bookkeeping only. */
  function Bare(e: Pte): Pte {
    e.(tag := OFF, valid := false, data := 0)
  }

  lemma BareKeeps(e: Pte)
    ensures Bare(e).present == e.present && Bare(e).preserve == e.preserve && Bare(e).bypass == e.bypass
    ensures Bare(e).user == e.user && Bare(e).frame == e.frame && Bare(e).attr == e.attr
  {
  }

  ghost predicate SameUse(t: seq<Pte>, t': seq<Pte>) {
    |t| == |t'| && forall i :: 0 <= i < |t| ==> Bare(t'[i]) == Bare(t[i])
  }

  /** b is the record of run r with the given links; a record read back for a
      run of one entry has no `prev`. */
  ghost predicate IsRecord(b: Block, r: Run, p: int, n: int) {
    && b.self == r.self && b.size == r.size
    && b.nextValid == (n >= 0) && (n >= 0 ==> b.next == n)
    && (r.size == 1 ==> !b.prevValid)
    && (r.size > 1 ==> b.prevValid == (p >= 0) && (p >= 0 ==> b.prev == p))
  }

  /** A record whose `prev` has been resolved. */
  ghost predicate IsLinked(b: Block, r: Run, p: int, n: int) {
    && b.self == r.self && b.size == r.size
    && b.nextValid == (n >= 0) && (n >= 0 ==> b.next == n)
    && b.prevValid == (p >= 0) && (p >= 0 ==> b.prev == p)
  }

  // ---------------------------------------------------------------------
  // Laws of one run
  // ---------------------------------------------------------------------

  /** Reading from any entry of a run recovers the whole record. */
  lemma GetRecovers(t: seq<Pte>, r: Run, p: int, n: int, i: nat, was: Block)
    requires MaximalRun(t, r) && Written(t, r, p, n)
    requires r.Has(i)
    ensures Anchored(t, i)
    ensures IsRecord(BlockGet(t, i, was), r, p, n)
  {
    var k := i - r.self;
    if k == 0 {
    } else if k == 1 {
    } else if k == 2 {
    } else {
      assert t[i].tag == OFF && t[i].data == k;
    }
    assert Anchor(t, i) == r.self;
  }

  lemma PutWrites(t: seq<Pte>, b: Block)
    requires |t| == ENTRIES && 1 <= b.size && b.self + b.size <= ENTRIES
    requires b.nextValid ==> b.next < ENTRIES
    requires b.prevValid ==> b.prev < ENTRIES
    ensures Written(BlockPut(t, b), Run(b.self, b.size),
                    if b.prevValid then b.prev else -1, if b.nextValid then b.next else -1)
    ensures SameUse(t, BlockPut(t, b))
  {
    PutTags(t, b);
    PutSameUse(t, b);
  }

  lemma PutTags(t: seq<Pte>, b: Block)
    requires |t| == ENTRIES && 1 <= b.size && b.self + b.size <= ENTRIES
    requires b.nextValid ==> b.next < ENTRIES
    requires b.prevValid ==> b.prev < ENTRIES
    ensures Written(BlockPut(t, b), Run(b.self, b.size),
                    if b.prevValid then b.prev else -1, if b.nextValid then b.next else -1)
  {
  }

  lemma PutSameUse(t: seq<Pte>, b: Block)
    ensures SameUse(t, BlockPut(t, b))
  {
    hide Bare, Stamp;
    forall i | 0 <= i < |t| ensures Bare(BlockPut(t, b)[i]) == Bare(t[i]) {
      if b.self <= i < b.self + b.size {
        StampKeeps(t[i], b, i - b.self);
      }
    }
  }

  lemma StampKeeps(e: Pte, b: Block, k: nat)
    ensures Bare(Stamp(e, b, k)) == Bare(e)
  {
  }

  /** BLOCK::get undoes BLOCK::put from whichever entry of the run it starts. */
  lemma GetUndoesPut(t: seq<Pte>, b: Block, i: nat, was: Block)
    requires MaximalRun(t, Run(b.self, b.size))
    requires b.nextValid ==> b.next < ENTRIES
    requires b.prevValid ==> b.prev < ENTRIES
    requires b.self <= i < b.self + b.size
    ensures Anchored(BlockPut(t, b), i)
    ensures var g := BlockGet(BlockPut(t, b), i, was);
            && g.self == b.self && g.size == b.size
            && g.nextValid == b.nextValid && (b.nextValid ==> g.next == b.next)
            && g.prevValid == (b.prevValid && b.size > 1)
            && (b.prevValid && b.size > 1 ==> g.prev == b.prev)
  {
    var p := if b.prevValid then b.prev else -1;
    var n := if b.nextValid then b.next else -1;
    PutWrites(t, b);
    SameUseMaximal(t, BlockPut(t, b), Run(b.self, b.size));
    GetRecovers(BlockPut(t, b), Run(b.self, b.size), p, n, i, was);
  }

  lemma SameUseUnused(t: seq<Pte>, t': seq<Pte>, i: nat)
    requires SameUse(t, t') && i < |t|
    ensures Unused(t'[i]) == Unused(t[i])
  {
    assert Bare(t'[i]) == Bare(t[i]);
    assert Bare(t'[i]).present == t'[i].present && Bare(t'[i]).preserve == t'[i].preserve;
  }

  lemma SameUseMaximal(t: seq<Pte>, t': seq<Pte>, r: Run)
    requires SameUse(t, t')
    ensures MaximalRun(t, r) <==> MaximalRun(t', r)
  {
    forall i | 0 <= i < |t| ensures Unused(t'[i]) == Unused(t[i]) {
      SameUseUnused(t, t', i);
    }
  }

  lemma SameUseTransitive(a: seq<Pte>, b: seq<Pte>, c: seq<Pte>)
    requires SameUse(a, b) && SameUse(b, c)
    ensures SameUse(a, c)
  {
  }

  lemma UsedOutside(t: seq<Pte>, r: Run, i: nat)
    requires MaximalRun(t, r) && i < |t| && !Unused(t[i])
    ensures !r.Has(i)
  {
  }

  /** Two maximal runs that start at different entries do not touch. */
  lemma MaximalDisjoint(t: seq<Pte>, a: Run, b: Run)
    requires MaximalRun(t, a) && MaximalRun(t, b) && a.self != b.self
    ensures a.self + a.size < b.self || b.self + b.size < a.self
  {
    if a.self < b.self {
      UsedOutside(t, a, b.self - 1);
    } else {
      UsedOutside(t, b, a.self - 1);
    }
  }

  /** Two maximal runs that start at the same entry are the same. */
  lemma MaximalSame(t: seq<Pte>, a: Run, b: Run)
    requires MaximalRun(t, a) && MaximalRun(t, b) && a.self == b.self
    ensures a == b
  {
    if a.self + a.size < ENTRIES {
      UsedOutside(t, b, a.self + a.size);
    }
    if b.self + b.size < ENTRIES {
      UsedOutside(t, a, b.self + b.size);
    }
  }

  // ---------------------------------------------------------------------
  // Laws of the list
  // ---------------------------------------------------------------------

  function Drop<T>(L: seq<T>, k: nat): seq<T>
    requires k < |L|
  {
    L[..k] + L[k + 1..]
  }

  function Add<T>(L: seq<T>, k: nat, r: T): seq<T>
    requires k <= |L|
  {
    L[..k] + [r] + L[k..]
  }

  ghost predicate AddedTo(L: seq<Run>, M: seq<Run>, r: Run) {
    exists k :: 0 <= k <= |L| && M == Add(L, k, r)
  }

  lemma AscendingDrop(L: seq<Run>, k: nat)
    requires Ascending(L) && k < |L|
    ensures Ascending(Drop(L, k))
  {
    var M := Drop(L, k);
    assert forall j :: 0 <= j < |M| ==> M[j] == L[if j < k then j else j + 1];
  }

  lemma AscendingAdd(L: seq<Run>, k: nat, r: Run)
    requires Ascending(L) && k <= |L|
    requires forall j :: 0 <= j < |L| ==> L[j].self != r.self
    requires k > 0 ==> L[k - 1].size <= r.size
    requires k < |L| ==> r.size <= L[k].size
    ensures Ascending(Add(L, k, r))
  {
    var M := Add(L, k, r);
    forall i, j | 0 <= i < j < |M| ensures M[i].size <= M[j].size && M[i].self != M[j].self {
      AscendingPair(L, k, r, i, j);
    }
  }

  /** The same for two places of the longer list. */
  lemma AscendingPair(L: seq<Run>, k: nat, r: Run, i: nat, j: nat)
    requires Ascending(L) && k <= |L| && i < j <= |L|
    requires forall j :: 0 <= j < |L| ==> L[j].self != r.self
    requires k > 0 ==> L[k - 1].size <= r.size
    requires k < |L| ==> r.size <= L[k].size
    ensures |Add(L, k, r)| == |L| + 1
    ensures Add(L, k, r)[i].size <= Add(L, k, r)[j].size && Add(L, k, r)[i].self != Add(L, k, r)[j].self
  {
    if i == k {
      assert Add(L, k, r)[i] == r && Add(L, k, r)[j] == L[j - 1];
      assert k < j - 1 ==> L[k].size <= L[j - 1].size;
    } else if j == k {
      assert Add(L, k, r)[i] == L[i] && Add(L, k, r)[j] == r;
      assert i < k - 1 ==> L[i].size <= L[k - 1].size;
    } else {
      assert Add(L, k, r)[i] == L[if i < k then i else i - 1] && Add(L, k, r)[j] == L[if j < k then j else j - 1];
    }
  }

  /** The neighbours of run k are linked to each other, past k. */
  ghost predicate WrittenWithout(t: seq<Pte>, L: seq<Run>, k: nat)
    requires k < |L|
  {
    forall j :: 0 <= j < |L| && j != k ==> WithoutAt(t, L, k, j)
  }

  ghost predicate WithoutAt(t: seq<Pte>, L: seq<Run>, k: nat, j: nat)
    requires k < |L| && j < |L|
  {
    Written(t, L[j], if j == k + 1 then PrevOf(L, k) else PrevOf(L, j),
            if j + 1 == k then NextOf(L, k) else NextOf(L, j))
  }

  lemma WrittenDropAt(t: seq<Pte>, L: seq<Run>, k: nat, j: nat)
    requires k < |L| && j < |L| - 1 && WrittenWithout(t, L, k)
    ensures WrittenAt(t, Drop(L, k), j)
  {
    var M := Drop(L, k);
    var i := if j < k then j else j + 1;
    assert WithoutAt(t, L, k, i);
    assert M[j] == L[i];
    assert PrevOf(M, j) == if i == k + 1 then PrevOf(L, k) else PrevOf(L, i);
    assert NextOf(M, j) == if i + 1 == k then NextOf(L, k) else NextOf(L, i);
  }

  lemma ChainDrop(t: seq<Pte>, t': seq<Pte>, L: seq<Run>, k: nat)
    requires Chain(t, L) && k < |L| && SameUse(t, t')
    requires WrittenWithout(t', L, k)
    ensures Chain(t', Drop(L, k))
  {
    var M := Drop(L, k);
    AscendingDrop(L, k);
    forall j | 0 <= j < |M| ensures MaximalRun(t', M[j]) {
      SameUseMaximal(t, t', L[if j < k then j else j + 1]);
    }
    forall j | 0 <= j < |M| ensures WrittenAt(t', M, j) {
      WrittenDropAt(t', L, k, j);
    }
  }

  /** Run r is linked in between run k - 1 and run k. */
  ghost predicate WrittenWith(t: seq<Pte>, L: seq<Run>, k: nat, r: Run)
    requires k <= |L|
  {
    && (forall j :: 0 <= j < |L| ==> WithAt(t, L, k, r, j))
    && Written(t, r, if k == 0 then -1 else L[k - 1].self, if k == |L| then -1 else L[k].self)
  }

  ghost predicate WithAt(t: seq<Pte>, L: seq<Run>, k: nat, r: Run, j: nat)
    requires k <= |L| && j < |L|
  {
    Written(t, L[j], if j == k then r.self as int else PrevOf(L, j),
            if j + 1 == k then r.self as int else NextOf(L, j))
  }

  lemma LinksAdd(L: seq<Run>, k: nat, r: Run, i: nat)
    requires k <= |L| && i < |L|
    ensures var j := if i < k then i else i + 1;
            && Add(L, k, r)[j] == L[i]
            && PrevOf(Add(L, k, r), j) == (if i == k then r.self as int else PrevOf(L, i))
            && NextOf(Add(L, k, r), j) == (if i + 1 == k then r.self as int else NextOf(L, i))
  {
  }

  lemma LinksNew(L: seq<Run>, k: nat, r: Run)
    requires k <= |L|
    ensures Add(L, k, r)[k] == r
    ensures PrevOf(Add(L, k, r), k) == if k == 0 then -1 else L[k - 1].self
    ensures NextOf(Add(L, k, r), k) == if k == |L| then -1 else L[k].self
  {
  }

  lemma WrittenAddAt(t: seq<Pte>, L: seq<Run>, k: nat, r: Run, j: nat)
    requires k <= |L| && j < |L| + 1 && WrittenWith(t, L, k, r)
    ensures WrittenAt(t, Add(L, k, r), j)
  {
    if j == k {
      LinksNew(L, k, r);
    } else {
      var i := if j < k then j else j - 1;
      LinksAdd(L, k, r, i);
      assert WithAt(t, L, k, r, i);
    }
  }

  lemma ChainAdd(t: seq<Pte>, t': seq<Pte>, L: seq<Run>, k: nat, r: Run)
    requires Chain(t, L) && k <= |L| && SameUse(t, t')
    requires MaximalRun(t, r)
    requires forall j :: 0 <= j < |L| ==> L[j].self != r.self
    requires k > 0 ==> L[k - 1].size <= r.size
    requires k < |L| ==> r.size <= L[k].size
    requires WrittenWith(t', L, k, r)
    ensures Chain(t', Add(L, k, r))
  {
    var M := Add(L, k, r);
    AscendingAdd(L, k, r);
    forall j | 0 <= j < |M| ensures MaximalRun(t', M[j]) {
      SameUseMaximal(t, t', if j < k then L[j] else if j == k then r else L[j - 1]);
    }
    forall j | 0 <= j < |M| ensures WrittenAt(t', M, j) {
      WrittenAddAt(t', L, k, r, j);
    }
  }

  lemma InSomeDrop(L: seq<Run>, k: nat, i: int)
    requires k < |L| && InSome(L, i)
    ensures InSome(Drop(L, k), i) || L[k].Has(i)
  {
    var j :| 0 <= j < |L| && L[j].Has(i);
    if j < k {
      assert Drop(L, k)[j].Has(i);
    } else if j > k {
      assert Drop(L, k)[j - 1].Has(i);
    }
  }

  lemma InSomeAdd(L: seq<Run>, k: nat, r: Run, i: int)
    requires k <= |L| && (InSome(L, i) || r.Has(i))
    ensures InSome(Add(L, k, r), i)
  {
    if r.Has(i) {
      assert Add(L, k, r)[k].Has(i);
    } else {
      var j :| 0 <= j < |L| && L[j].Has(i);
      assert Add(L, k, r)[if j < k then j else j + 1].Has(i);
    }
  }

  // ---------------------------------------------------------------------
  // The 4-bit size field
  // ---------------------------------------------------------------------

  function BitLength(n: nat): nat {
    if n == 0 then 0 else 1 + BitLength(n / 2)
  }

  function Decode(remain: nat): nat {
    if remain < 8 then
      (if remain == 0 then 0 else Pow2(remain - 1))
    else 64 + 56 * (remain - 7)
  }

  function Encode(n: nat): nat {
    if n >= 64 + 56 then 7 + (n - 64) / 56 else BitLength(n)
  }

  lemma {:induction false} BitLengthBounds(n: nat)
    requires n > 0
    ensures BitLength(n) > 0
    ensures Pow2(BitLength(n) - 1) <= n < Pow2(BitLength(n))
  {
    if n > 1 {
      BitLengthBounds(n / 2);
    } else {
      assert BitLength(1) == 1 + BitLength(0);
    }
  }

  lemma {:induction false} BitLengthAtMost(n: nat, bits: nat)
    requires n < Pow2(bits)
    ensures BitLength(n) <= bits
  {
    if n > 0 {
      BitLengthAtMost(n / 2, bits - 1);
    }
  }

  lemma {:induction false} BitLengthOfPower(bits: nat)
    ensures BitLength(Pow2(bits)) == bits + 1
  {
    if bits == 0 {
      assert BitLength(1) == 1 + BitLength(0);
    } else {
      BitLengthOfPower(bits - 1);
    }
  }

  lemma {:induction false} BitLengthMonotone(m: nat, n: nat)
    requires m <= n
    ensures BitLength(m) <= BitLength(n)
  {
    if m > 0 {
      BitLengthMonotone(m / 2, n / 2);
    }
  }

  lemma SmallPowers()
    ensures Pow2(0) == 1 && Pow2(1) == 2 && Pow2(2) == 4 && Pow2(3) == 8 && Pow2(4) == 16
    ensures Pow2(5) == 32 && Pow2(6) == 64 && Pow2(7) == 128
  {
    assert Pow2(2) == 2 * Pow2(1);
    assert Pow2(4) == 2 * Pow2(3);
    assert Pow2(6) == 2 * Pow2(5);
  }

  /** The field never overstates, loses at most half, fits its 4 bits, and is exact at
      both ends: 0 only for a full table, 0x200 only for an empty one. */
  lemma FieldLaws(n: nat)
    requires n <= ENTRIES
    ensures Encode(n) < 16
    ensures Decode(Encode(n)) <= n <= 2 * Decode(Encode(n))
    ensures Decode(Encode(n)) == 0 <==> n == 0
    ensures Decode(Encode(n)) == ENTRIES <==> n == ENTRIES
  {
    SmallPowers();
    if 0 < n < 64 + 56 {
      BitLengthBounds(n);
      BitLengthAtMost(n, 7);
      assert Decode(Encode(n)) == Pow2(BitLength(n) - 1);
    }
  }

  /** Rounding costs nothing only for powers of two up to 64 and the steps of 56
      above; so a table whose largest run has 63 entries is thought to fit 32. */
  lemma FieldIsExactFor(n: nat)
    requires n <= ENTRIES
    ensures Decode(Encode(n)) == n <==>
      n == 0 || (n < 120 && n == Pow2(BitLength(n) - 1)) || (n >= 120 && (n - 64) % 56 == 0)
    ensures Decode(Encode(63)) == 32
  {
    SmallPowers();
    if 0 < n < 120 {
      BitLengthBounds(n);
      BitLengthAtMost(n, 7);
    }
    BitLengthAtMost(63, 6);
    BitLengthBounds(63);
    assert BitLength(63) == 6 by {
      BitLengthMonotone(32, 63);
      BitLengthOfPower(5);
    }
  }

  lemma EncodeMonotone(m: nat, n: nat)
    requires m <= n <= ENTRIES
    ensures Encode(m) <= Encode(n)
  {
    if n < 64 + 56 {
      BitLengthMonotone(m, n);
    } else if m < 64 + 56 {
      SmallPowers();
      BitLengthAtMost(m, 7);
    }
  }

  /** Encoding what the field decodes to gives the field back. */
  lemma EncodeDecode(r: nat)
    requires r < 16
    ensures Decode(r) <= ENTRIES && Encode(Decode(r)) == r
  {
    SmallPowers();
    if 0 < r < 8 {
      BitLengthOfPower(r - 1);
      assert r == 1 || r == 2 || r == 3 || r == 4 || r == 5 || r == 6 || r == 7;
    }
  }

  lemma DecodeMonotone(m: nat, n: nat)
    requires m <= n < 16
    ensures Decode(m) <= Decode(n)
  {
    SmallPowers();
    assert m == 0 || m == 1 || m == 2 || m == 3 || m == 4 || m == 5 || m == 6 || m == 7 || m >= 8;
    assert n == 0 || n == 1 || n == 2 || n == 3 || n == 4 || n == 5 || n == 6 || n == 7 || n >= 8;
  }

  /** erase's update of the field: any value between what the field decodes to
      and the true maximum re-encodes to the same field. */
  lemma FieldStable(x: nat, top: nat)
    requires x <= top <= ENTRIES && Decode(Encode(top)) <= x
    ensures Encode(x) == Encode(top)
  {
    FieldLaws(top);
    EncodeMonotone(x, top);
    EncodeMonotone(Decode(Encode(top)), x);
    EncodeDecode(Encode(top));
  }

  // ---------------------------------------------------------------------
  // Relinking steps
  // ---------------------------------------------------------------------

  ghost predicate Untouched(t: seq<Pte>, t': seq<Pte>, r: Run) {
    |t'| == |t| && forall i :: 0 <= i < |t| && !r.Has(i) ==> t'[i] == t[i]
  }

  lemma PutLinks(t: seq<Pte>, b: Block, p: int, n: int)
    requires |t| == ENTRIES && 1 <= b.size && b.self + b.size <= ENTRIES
    requires b.nextValid == (n >= 0) && (n >= 0 ==> b.next == n < ENTRIES)
    requires b.size > 1 ==> b.prevValid == (p >= 0) && (p >= 0 ==> b.prev == p < ENTRIES)
    ensures Written(BlockPut(t, b), Run(b.self, b.size), p, n)
    ensures Untouched(t, BlockPut(t, b), Run(b.self, b.size))
    ensures SameUse(t, BlockPut(t, b))
  {
    PutLinkTags(t, b, p, n);
    PutSameUse(t, b);
    hide Stamp;
  }

  lemma PutLinkTags(t: seq<Pte>, b: Block, p: int, n: int)
    requires |t| == ENTRIES && 1 <= b.size && b.self + b.size <= ENTRIES
    requires b.nextValid == (n >= 0) && (n >= 0 ==> b.next == n < ENTRIES)
    requires b.size > 1 ==> b.prevValid == (p >= 0) && (p >= 0 ==> b.prev == p < ENTRIES)
    ensures Written(BlockPut(t, b), Run(b.self, b.size), p, n)
  {
  }

  lemma KeepWritten(t: seq<Pte>, t': seq<Pte>, touched: Run, r: Run, p: int, n: int)
    requires Untouched(t, t', touched) && Written(t, r, p, n)
    requires r.self + r.size <= touched.self || touched.self + touched.size <= r.self
    ensures Written(t', r, p, n)
  {
  }

  lemma ListDisjoint(t: seq<Pte>, L: seq<Run>, j: nat, k: nat)
    requires AllMaximal(t, L) && Ascending(L) && j < |L| && k < |L| && j != k
    ensures L[j].self + L[j].size < L[k].self || L[k].self + L[k].size < L[j].self
  {
    assert L[j].self != L[k].self;
    MaximalDisjoint(t, L[j], L[k]);
  }

  /** The table after the next link of run k has been replaced by n. */
  ghost predicate NextReplaced(t: seq<Pte>, t': seq<Pte>, L: seq<Run>, k: nat, n: int)
    requires k < |L|
  {
    Untouched(t, t', L[k]) && Written(t', L[k], PrevOf(L, k), n) && SameUse(t, t')
  }

  ghost predicate PrevReplaced(t: seq<Pte>, t': seq<Pte>, L: seq<Run>, k: nat, p: int)
    requires k < |L|
  {
    Untouched(t, t', L[k]) && Written(t', L[k], p, NextOf(L, k)) && SameUse(t, t')
  }

  lemma RunBounds(t: seq<Pte>, L: seq<Run>)
    requires AllMaximal(t, L)
    ensures forall j :: 0 <= j < |L| ==> 1 <= L[j].size && L[j].self + L[j].size <= ENTRIES
    ensures MaxSize(L) <= ENTRIES && (MaxSize(L) == 0 <==> |L| == 0)
  {
  }

  /** Replacing a link of run k leaves every other run of the list as it is. */
  lemma KeepOther(t: seq<Pte>, t1: seq<Pte>, t2: seq<Pte>, L: seq<Run>, k: nat, j: nat, p: int, n: int)
    requires Chain(t, L) && k < |L| && j < |L| && j != k
    requires Untouched(t1, t2, L[k]) && Written(t1, L[j], p, n)
    ensures Written(t2, L[j], p, n)
  {
    ListDisjoint(t, L, j, k);
    KeepWritten(t1, t2, L[k], L[j], p, n);
  }

  lemma AfterNext(t: seq<Pte>, t1: seq<Pte>, L: seq<Run>, k: nat, j: nat, n: int)
    requires Chain(t, L) && k <= |L| && j < |L|
    requires if k > 0 then NextReplaced(t, t1, L, k - 1, n) else t1 == t
    ensures Written(t1, L[j], PrevOf(L, j), if j + 1 == k then n else NextOf(L, j))
  {
    hide Written, Untouched, SameUse, AllMaximal, Ascending;
    assert WrittenAt(t, L, j);
    if k > 0 && j != k - 1 {
      KeepOther(t, t, t1, L, k - 1, j, PrevOf(L, j), NextOf(L, j));
    }
  }

  lemma RelinkedWithoutAt(t: seq<Pte>, t1: seq<Pte>, t2: seq<Pte>, L: seq<Run>, k: nat, j: nat)
    requires Chain(t, L) && k < |L| && j < |L| && j != k
    requires if k > 0 then NextReplaced(t, t1, L, k - 1, NextOf(L, k)) else t1 == t
    requires if k + 1 < |L| then PrevReplaced(t1, t2, L, k + 1, PrevOf(L, k)) else t2 == t1
    ensures WithoutAt(t2, L, k, j)
  {
    hide Chain, MaximalRun, Written, SameUse, Untouched;
    AfterNext(t, t1, L, k, j, NextOf(L, k));
    if j != k + 1 && k + 1 < |L| {
      KeepOther(t, t1, t2, L, k + 1, j, PrevOf(L, j), if j + 1 == k then NextOf(L, k) else NextOf(L, j));
    }
  }

  lemma RelinkedWithout(t: seq<Pte>, t1: seq<Pte>, t2: seq<Pte>, L: seq<Run>, k: nat)
    requires Chain(t, L) && k < |L|
    requires if k > 0 then NextReplaced(t, t1, L, k - 1, NextOf(L, k)) else t1 == t
    requires if k + 1 < |L| then PrevReplaced(t1, t2, L, k + 1, PrevOf(L, k)) else t2 == t1
    ensures WrittenWithout(t2, L, k) && SameUse(t, t2)
  {
    forall j | 0 <= j < |L| && j != k ensures WithoutAt(t2, L, k, j) {
      RelinkedWithoutAt(t, t1, t2, L, k, j);
    }
    SameUseTransitive(t, t1, t2);
  }

  lemma AfterPrev(t: seq<Pte>, t1: seq<Pte>, L: seq<Run>, k: nat, j: nat, p: int)
    requires Chain(t, L) && k <= |L| && j < |L|
    requires if k < |L| then PrevReplaced(t, t1, L, k, p) else t1 == t
    ensures Written(t1, L[j], if j == k then p else PrevOf(L, j), NextOf(L, j))
  {
    assert WrittenAt(t, L, j);
    if k < |L| && j != k {
      KeepOther(t, t, t1, L, k, j, PrevOf(L, j), NextOf(L, j));
    }
  }

  lemma RelinkedWithAt(t: seq<Pte>, t1: seq<Pte>, t2: seq<Pte>, t3: seq<Pte>, L: seq<Run>, k: nat, r: Run, j: nat)
    requires Chain(t, L) && k <= |L| && MaximalRun(t, r) && j < |L| && L[j].self != r.self
    requires if k < |L| then PrevReplaced(t, t1, L, k, r.self) else t1 == t
    requires if k > 0 then NextReplaced(t1, t2, L, k - 1, r.self) else t2 == t1
    requires Untouched(t2, t3, r)
    ensures WithAt(t3, L, k, r, j)
  {
    hide MaximalRun, Written, SameUse, Untouched;
    var p := if j == k then r.self as int else PrevOf(L, j);
    var n := if j + 1 == k then r.self as int else NextOf(L, j);
    AfterPrev(t, t1, L, k, j, r.self);
    if k > 0 && j != k - 1 {
      KeepOther(t, t1, t2, L, k - 1, j, p, n);
    }
    MaximalDisjoint(t, L[j], r);
    KeepWritten(t2, t3, r, L[j], p, n);
  }

  lemma RelinkedWith(t: seq<Pte>, t1: seq<Pte>, t2: seq<Pte>, t3: seq<Pte>, L: seq<Run>, k: nat, r: Run)
    requires Chain(t, L) && k <= |L| && MaximalRun(t, r)
    requires forall j :: 0 <= j < |L| ==> L[j].self != r.self
    requires if k < |L| then PrevReplaced(t, t1, L, k, r.self) else t1 == t
    requires if k > 0 then NextReplaced(t1, t2, L, k - 1, r.self) else t2 == t1
    requires Untouched(t2, t3, r) && SameUse(t2, t3)
    requires Written(t3, r, if k == 0 then -1 else L[k - 1].self, if k == |L| then -1 else L[k].self)
    ensures WrittenWith(t3, L, k, r) && SameUse(t, t3)
  {
    forall j | 0 <= j < |L| ensures WithAt(t3, L, k, r, j) {
      RelinkedWithAt(t, t1, t2, t3, L, k, r, j);
    }
    SameUseTransitive(t, t1, t2);
    SameUseTransitive(t, t2, t3);
  }

  lemma SingleHasNoPrev(t: seq<Pte>, r: Run, p: int, p': int, n: int)
    requires Written(t, r, p, n) && r.size == 1
    ensures Written(t, r, p', n)
  {
  }

  function MaxSize(L: seq<Run>): nat {
    if |L| == 0 then 0 else L[|L| - 1].size
  }

  /** The fields of the directory entry agree with the list. */
  ghost predicate Fields(head: nat, remain: nat, L: seq<Run>) {
    (|L| > 0 ==> head == L[0].self) && remain == Encode(MaxSize(L))
  }

  const NoBlock := Block(0, 0, 0, 0, false, false)

  /** x is the record of run k of L, or void when there is no such run. */
  ghost predicate AtSlot(x: Block, L: seq<Run>, k: int) {
    if 0 <= k < |L| then IsRecord(x, L[k], PrevOf(L, k), NextOf(L, k)) else x.size == 0
  }

  lemma FirstOnly(L: seq<Run>, k: nat)
    requires Ascending(L) && k < |L|
    ensures L[0].self == L[k].self <==> k == 0
  {
  }

  lemma SameRun(t: seq<Pte>, L: seq<Run>, j: nat, k: nat)
    requires Chain(t, L) && j < |L| && k < |L| && L[j].self == L[k].self
    ensures j == k
  {
  }

  /** The size of run k, 0 when there is no such run. */
  function SizeAt(L: seq<Run>, k: int): nat {
    if 0 <= k < |L| then L[k].size else 0
  }

  /** Place k was reached from place k0 over runs that did not fit. */
  ghost predicate Nearest(L: seq<Run>, size: nat, k0: nat, k: nat) {
    && (k < k0 ==> k < |L| && size < L[k].size)
    && (k0 < k ==> SizeAt(L, k - 1) < size)
  }

  lemma SlotSize(x: Block, L: seq<Run>, k: int)
    requires AtSlot(x, L, k)
    ensures x.size == SizeAt(L, k)
  {
  }

  lemma SlotLinks(x: Block, L: seq<Run>, k: nat)
    requires k < |L| && AtSlot(x, L, k)
    requires forall j :: 0 <= j < |L| ==> 1 <= L[j].size
    ensures x.nextValid == (k + 1 < |L|) && (x.nextValid ==> L[k + 1].Has(x.next))
    ensures x.size > 1 ==> x.prevValid == (k > 0)
    ensures x.prevValid ==> k > 0 && L[k - 1].Has(x.prev)
  {
  }

  lemma SlotIs(x: Block, L: seq<Run>, k: int)
    requires if 0 <= k < |L| then IsRecord(x, L[k], PrevOf(L, k), NextOf(L, k)) else x == NoBlock
    ensures AtSlot(x, L, k)
  {
  }

  /** The links of b point at the runs around position k of L. */
  ghost predicate Hint(b: Block, L: seq<Run>, k: nat) {
    && k <= |L|
    && b.prevValid == (k > 0) && (k > 0 ==> b.prev == L[k - 1].self)
    && b.nextValid == (k < |L|) && (k < |L| ==> b.next == L[k].self)
  }

  // ---------------------------------------------------------------------
  // The page table and its directory entry
  // ---------------------------------------------------------------------

  class PageTable {
    const frame: nat
    const pte: array<Pte>
    var head: nat
    var remain: nat
    ghost var runs: seq<Run>

    ghost predicate Linked()
      reads this, pte
    {
      pte.Length == ENTRIES && Chain(pte[..], runs) && Fields(head, remain, runs)
    }

    ghost predicate Valid()
      reads this, pte
    {
      Linked() && Covers(pte[..], runs, 0, 0)
    }

    /** The list holds each maximal run of unused entries, and nothing else, and
        the field of the directory entry encodes the size of the largest. */
    lemma ListsMaximalRuns(r: Run)
      requires Valid()
      ensures r in runs <==> MaximalRun(pte[..], r)
      ensures MaximalRun(pte[..], r) ==>
        Decode(remain) <= MaxSize(runs) && r.size <= MaxSize(runs) <= 2 * Decode(remain)
      ensures multiset(runs)[r] <= 1
    {
      LinkedBounds();
      FieldLaws(MaxSize(runs));
      if MaximalRun(pte[..], r) {
        var k := ListedRun(pte[..], runs, r);
      }
      OnceEach(runs, r);
    }

    /** The field tells a wholly unused table and a full one exactly. */
    lemma FieldIsExactAtEnds()
      requires Valid()
      ensures GetMaxSize() == ENTRIES <==> AllUnused(pte[..], 0, ENTRIES)
      ensures GetMaxSize() == 0 <==> forall i :: 0 <= i < ENTRIES ==> !Unused(pte[i])
    {
      LinkedBounds();
      FieldLaws(MaxSize(runs));
      var t := pte[..];
      if AllUnused(t, 0, ENTRIES) {
        assert MaximalRun(t, Run(0, ENTRIES));
        var k := ListedRun(t, runs, Run(0, ENTRIES));
      }
      if |runs| > 0 {
        var r := runs[|runs| - 1];
        assert MaximalRun(t, r);
        assert Unused(pte[r.self]);
      } else {
        forall i | 0 <= i < ENTRIES ensures !Unused(t[i]) {
          assert !InSome(runs, i);
        }
      }
    }

    /** The field admits a request exactly when the rounded size of some maximal run does. */
    lemma FieldIsCramped(count: nat)
      requires Valid() && 0 < count
      ensures GetMaxSize() < count <==> Cramped(pte[..], count)
    {
      var t := pte[..];
      LinkedBounds();
      if |runs| > 0 {
        assert MaximalRun(t, runs[|runs| - 1]);
      }
      forall r | MaximalRun(t, r) ensures Decode(Encode(r.size)) <= GetMaxSize() {
        var k := ListedRun(t, runs, r);
        EncodeMonotone(r.size, MaxSize(runs));
        FieldLaws(MaxSize(runs));
        DecodeMonotone(Encode(r.size), Encode(MaxSize(runs)));
      }
    }

    /** new_pt: a zeroed page with one run of all its entries. */
    constructor (page: nat)
      ensures Valid() && fresh(pte) && frame == page
      ensures AllUnused(pte[..], 0, ENTRIES) && forall i :: 0 <= i < ENTRIES ==> !pte[i].bypass && pte[i].frame == 0
      ensures forall i :: 0 <= i < ENTRIES ==> Bare(pte[..][i]) == ZERO
    {
      frame := page;
      pte := new Pte[ENTRIES](_ => ZERO);
      head, remain, runs := 0, 0, [Run(0, ENTRIES)];
      new;
      PutMaxSize(ENTRIES);
      var block := Block(0, 0, 0, ENTRIES, false, false);
      PutLinks(pte[..], block, -1, -1);
      ghost var t := pte[..];
      Put(block);
      WholeTable(t, pte[..]);
    }

    lemma LinkedFacts()
      requires Linked()
      ensures pte.Length == ENTRIES && Chain(pte[..], runs) && Fields(head, remain, runs)
    {
    }

    lemma ValidFacts()
      requires Valid()
      ensures Linked() && pte.Length == ENTRIES
      ensures Chain(pte[..], runs) && Covers(pte[..], runs, 0, 0) && Fields(head, remain, runs)
    {
    }

    lemma BecomesLinked()
      requires pte.Length == ENTRIES && Chain(pte[..], runs) && Fields(head, remain, runs)
      ensures Linked()
    {
    }

    /** An unlinked record is put before the head. */
    lemma HeadHint(b: Block)
      requires Linked() && !b.prevValid && !b.nextValid
      ensures Hint(if GetMaxSize() != 0 then b.(next := head, nextValid := true) else b, runs, 0)
    {
      LinkedBounds();
      FieldLaws(MaxSize(runs));
    }

    lemma BecomesValid()
      requires Linked() && Covers(pte[..], runs, 0, 0)
      ensures Valid()
    {
    }

    lemma LinkedBounds()
      requires Linked()
      ensures forall j :: 0 <= j < |runs| ==> 1 <= runs[j].size && runs[j].self + runs[j].size <= ENTRIES
      ensures MaxSize(runs) <= ENTRIES && (MaxSize(runs) == 0 <==> |runs| == 0)
      ensures Ascending(runs)
    {
      RunBounds(pte[..], runs);
    }

    function GetMaxSize(): nat
      reads this
    {
      Decode(remain)
    }

    method PutMaxSize(n: nat)
      requires n <= ENTRIES
      modifies this`remain
      ensures remain == Encode(n)
    {
      if n >= 64 + 56 {
        remain := 7 + (n - 64) / 56;
      } else {
        var bits, m := 0, n;
        while m > 0
          invariant bits + BitLength(m) == BitLength(n)
        {
          m := m / 2;
          bits := bits + 1;
        }
        remain := bits;
      }
    }

    method Put(b: Block)
      requires pte.Length == ENTRIES && 1 <= b.size && b.self + b.size <= ENTRIES
      modifies pte
      ensures pte[..] == BlockPut(old(pte[..]), b)
    {
      var pt := b.self;
      pte[pt] := pte[pt].(tag := NEXT, data := b.next % ENTRIES, valid := b.nextValid);
      if b.size == 1 {
        return;
      }
      pt := pt + 1;
      pte[pt] := pte[pt].(tag := PREV, data := b.prev % ENTRIES, valid := b.prevValid);
      if b.size == 2 {
        return;
      }
      pt := pt + 1;
      pte[pt] := pte[pt].(tag := SIZE, data := (b.size - 1) % ENTRIES, valid := true);
      for i := 3 to b.size
        invariant pt == b.self + i - 1
        invariant forall j :: 0 <= j < ENTRIES ==>
                    pte[j] == if b.self <= j < b.self + i then Stamp(old(pte[j]), b, j - b.self) else old(pte[j])
      {
        pt := pt + 1;
        pte[pt] := pte[pt].(tag := OFF, valid := true, data := i % ENTRIES);
      }
    }

    /** Reads the record of run k, starting from one of its entries. */
    method ReadRun(i: nat, was: Block, ghost k: nat) returns (b: Block)
      requires Linked() && k < |runs| && runs[k].Has(i)
      ensures IsRecord(b, runs[k], PrevOf(runs, k), NextOf(runs, k))
    {
      assert WrittenAt(pte[..], runs, k);
      GetRecovers(pte[..], runs[k], PrevOf(runs, k), NextOf(runs, k), i, was);
      b := BlockGet(pte[..], i, was);
    }

    /** Finds the predecessor of a run.  A run of one entry has no room for the
        link, so the list is walked from its head. */
    method ResolvePrior(block: Block, ghost k: nat) returns (b: Block)
      requires Linked() && k < |runs|
      requires IsRecord(block, runs[k], PrevOf(runs, k), NextOf(runs, k))
      ensures IsLinked(b, runs[k], PrevOf(runs, k), NextOf(runs, k))
    {
      RunBounds(pte[..], runs);
      FirstOnly(runs, k);
      hide Linked;
      b := block;
      if head == b.self {
        return;
      }
      if b.size > 1 {
        return;
      }
      var prior := ReadRun(head, NoBlock, 0);
      ghost var j := 0;
      while !(prior.nextValid && prior.next == b.self)
        invariant j < k
        invariant IsRecord(prior, runs[j], PrevOf(runs, j), NextOf(runs, j))
        decreases k - j
      {
        j := j + 1;
        prior := ReadRun(prior.next, prior, j);
      }
      SameRun(pte[..], runs, j + 1, k);
      b := b.(prev := prior.self, prevValid := true);
    }

    /** Takes run k out of the list; its entries keep stale links. */
    method Erase(block: Block, ghost k: nat)
      requires Linked() && k < |runs|
      requires IsLinked(block, runs[k], PrevOf(runs, k), NextOf(runs, k))
      modifies this`head, this`remain, this`runs, pte
      ensures Linked() && runs == Drop(old(runs), k)
      ensures SameUse(old(pte[..]), pte[..])
    {
      hide *;
      ghost var L, t := runs, pte[..];
      LinkedBounds();
      LinkedFacts();
      LinksOf(block, L, k);
      var maxSize := 0;
      if block.prevValid {
        maxSize := SkipForward(block, k);
      } else {
        head := block.next;
      }
      ghost var t1 := pte[..];
      SameUseReflexive(t);
      if block.nextValid {
        ErasedSoFar(t, t1, L, k);
        var size := SkipBackward(block, k);
        maxSize := if size > Decode(remain) then size else Decode(remain);
      }
      ErasedField(L, k, remain, maxSize);
      PutMaxSize(maxSize);
      RelinkedWithout(t, t1, pte[..], L, k);
      ChainDrop(t, pte[..], L, k);
      DroppedFields(block, old(head), L, k);
      runs := Drop(L, k);
      BecomesLinked();
    }

    /** Links the run before k to the run after k. */
    method SkipForward(block: Block, ghost k: nat) returns (size: nat)
      requires Linked() && 0 < k < |runs|
      requires IsLinked(block, runs[k], PrevOf(runs, k), NextOf(runs, k))
      modifies pte
      ensures size == runs[k - 1].size
      ensures NextReplaced(old(pte[..]), pte[..], runs, k - 1, NextOf(runs, k))
    {
      assert runs[k - 1].Has(block.prev);
      var p := ReadRun(block.prev, NoBlock, k - 1);
      p := p.(next := block.next, nextValid := block.nextValid);
      PutLinks(pte[..], p, PrevOf(runs, k - 1), NextOf(runs, k));
      Put(p);
      size := p.size;
    }

    /** Links the run after k back to the run before k. */
    method SkipBackward(block: Block, ghost k: nat) returns (size: nat)
      requires pte.Length == ENTRIES && k + 1 < |runs|
      requires IsLinked(block, runs[k], PrevOf(runs, k), NextOf(runs, k))
      requires Written(pte[..], runs[k + 1], PrevOf(runs, k + 1), NextOf(runs, k + 1))
      requires MaximalRun(pte[..], runs[k + 1])
      requires forall j :: 0 <= j < |runs| ==> runs[j].self < ENTRIES
      modifies pte
      ensures size == runs[k + 1].size
      ensures PrevReplaced(old(pte[..]), pte[..], runs, k + 1, PrevOf(runs, k))
    {
      ghost var t1 := pte[..];
      assert runs[k + 1].Has(block.next);
      GetRecovers(t1, runs[k + 1], PrevOf(runs, k + 1), NextOf(runs, k + 1), block.next, NoBlock);
      var n := BlockGet(pte[..], block.next, NoBlock);
      if n.size > 1 {
        n := n.(prev := block.prev, prevValid := block.prevValid);
        PutLinks(t1, n, PrevOf(runs, k), NextOf(runs, k + 1));
        Put(n);
      } else {
        SingleHasNoPrev(t1, runs[k + 1], PrevOf(runs, k + 1), PrevOf(runs, k), NextOf(runs, k + 1));
      }
      size := n.size;
    }

    /** Finds the place of a new run, searching left or right from the hint. */
    method FindPlace(block: Block, ghost at: nat) returns (prev: Block, next: Block, ghost k: nat)
      requires Linked() && block.size > 0
      requires Hint(block, runs, at) || (!block.prevValid && !block.nextValid)
      ensures k <= |runs| && AtSlot(prev, runs, k - 1) && AtSlot(next, runs, k)
      ensures SizeAt(runs, k - 1) <= block.size
      ensures k < |runs| ==> block.size <= runs[k].size
      // of the places that fit, the nearest to the hint
      ensures Nearest(runs, block.size, if block.prevValid || block.nextValid then at else 0, k)
    {
      hide *;
      var b := block;
      k := at;
      LinkedBounds();
      if !b.prevValid && !b.nextValid {
        HeadHint(b);
        if GetMaxSize() != 0 {
          b := b.(next := head, nextValid := true);
        }
        k := 0;
      }
      HintRuns(b, runs, k);
      prev, next := NoBlock, NoBlock;
      if b.prevValid {
        prev := ReadRun(b.prev, prev, k - 1);
      }
      if b.nextValid {
        next := ReadRun(b.next, next, k);
      }
      SlotIs(prev, runs, k - 1);
      SlotIs(next, runs, k);
      SlotsAround(prev, next, runs, k);
      if prev.size != 0 && prev.size > b.size {
        prev, next, k := ShiftLeft(b.size, prev, next, k);
      } else {
        prev, next, k := ShiftRight(b.size, prev, next, k);
      }
    }

    method ShiftLeft(size: nat, prev0: Block, next0: Block, ghost k0: nat)
      returns (prev: Block, next: Block, ghost k: nat)
      requires Linked() && 0 < size
      requires k0 <= |runs| && AtSlot(prev0, runs, k0 - 1) && AtSlot(next0, runs, k0)
      requires k0 < |runs| ==> size <= runs[k0].size
      ensures k <= |runs| && AtSlot(prev, runs, k - 1) && AtSlot(next, runs, k)
      ensures SizeAt(runs, k - 1) <= size
      ensures k < |runs| ==> size <= runs[k].size
      ensures Nearest(runs, size, k0, k)
    {
      hide Linked, AtSlot;
      prev, next, k := prev0, next0, k0;
      SlotSize(prev, runs, k - 1);
      while prev.size != 0 && prev.size > size
        invariant k <= |runs| && AtSlot(prev, runs, k - 1) && AtSlot(next, runs, k)
        invariant prev.size == SizeAt(runs, k - 1)
        invariant k < |runs| ==> size <= runs[k].size
        invariant k <= k0 && (k < k0 ==> size < runs[k].size)
        decreases k
      {
        next := prev;
        k := k - 1;
        prev := Before(next, k);
      }
    }

    /** The record of the run before run k, void when run k is the first. */
    method Before(x: Block, ghost k: nat) returns (prev: Block)
      requires Linked() && k < |runs| && AtSlot(x, runs, k) && x.size > 1
      ensures AtSlot(prev, runs, k - 1) && prev.size == SizeAt(runs, k - 1)
    {
      RunBounds(pte[..], runs);
      SlotLinks(x, runs, k);
      prev := NoBlock;
      if x.prevValid {
        prev := ReadRun(x.prev, prev, k - 1);
      }
    }

    /** The record of the run after run k, void when run k is the last. */
    method After(x: Block, ghost k: nat) returns (next: Block)
      requires Linked() && k < |runs| && AtSlot(x, runs, k)
      ensures AtSlot(next, runs, k + 1) && next.size == SizeAt(runs, k + 1)
    {
      RunBounds(pte[..], runs);
      SlotLinks(x, runs, k);
      next := NoBlock;
      if x.nextValid {
        next := ReadRun(x.next, next, k + 1);
      }
    }

    method ShiftRight(size: nat, prev0: Block, next0: Block, ghost k0: nat)
      returns (prev: Block, next: Block, ghost k: nat)
      requires Linked() && 0 < size
      requires k0 <= |runs| && AtSlot(prev0, runs, k0 - 1) && AtSlot(next0, runs, k0)
      requires SizeAt(runs, k0 - 1) <= size
      ensures k <= |runs| && AtSlot(prev, runs, k - 1) && AtSlot(next, runs, k)
      ensures SizeAt(runs, k - 1) <= size
      ensures k < |runs| ==> size <= runs[k].size
      ensures Nearest(runs, size, k0, k)
    {
      hide Linked, AtSlot;
      prev, next, k := prev0, next0, k0;
      SlotSize(next, runs, k);
      while next.size != 0 && next.size < size
        invariant k <= |runs| && AtSlot(prev, runs, k - 1) && AtSlot(next, runs, k)
        invariant next.size == SizeAt(runs, k)
        invariant SizeAt(runs, k - 1) <= size
        invariant k >= k0 && (k > k0 ==> SizeAt(runs, k - 1) < size)
        decreases |runs| - k
      {
        prev := next;
        next := After(prev, k);
        k := k + 1;
      }
      LinkedBounds();
    }

    /** Writes the new run between its neighbours. */
    method LinkIn(block: Block, prev0: Block, next0: Block, ghost k: nat)
      requires Linked() && MaximalRun(pte[..], Run(block.self, block.size))
      requires forall j :: 0 <= j < |runs| ==> runs[j].self != block.self
      requires k <= |runs| && AtSlot(prev0, runs, k - 1) && AtSlot(next0, runs, k)
      requires k > 0 ==> runs[k - 1].size <= block.size
      requires k < |runs| ==> block.size <= runs[k].size
      modifies this`head, this`remain, this`runs, pte
      ensures Linked() && runs == Add(old(runs), k, Run(block.self, block.size))
      ensures SameUse(old(pte[..]), pte[..])
    {
      ghost var L, t, r := runs, pte[..], Run(block.self, block.size);
      RunBounds(t, L);
      hide Chain, MaximalRun, Written, SameUse, Untouched;
      ghost var t1 := LinkNeighbours(block, prev0, next0, k);
      ghost var t2 := pte[..];
      var b := block.(next := next0.self, nextValid := next0.size != 0, prev := prev0.self,
          prevValid := prev0.size != 0);
      PutLinks(t2, b, if k == 0 then -1 else L[k - 1].self, if k == |L| then -1 else L[k].self);
      Put(b);
      runs := Add(L, k, r);
      RelinkedWith(t, t1, t2, pte[..], L, k, r);
      ChainAdd(t, pte[..], L, k, r);
    }

    method LinkNeighbours(block: Block, prev: Block, next: Block, ghost k: nat) returns (ghost t1: seq<Pte>)
      requires pte.Length == ENTRIES && 1 <= block.size && block.self + block.size <= ENTRIES
      requires Fields(head, remain, runs)
      requires forall j :: 0 <= j < |runs| ==> 1 <= runs[j].size && runs[j].self + runs[j].size <= ENTRIES
      requires k <= |runs| && AtSlot(prev, runs, k - 1) && AtSlot(next, runs, k)
      modifies this`head, this`remain, pte
      ensures if k < |runs| then PrevReplaced(old(pte[..]), t1, runs, k, block.self) else t1 == old(pte[..])
      ensures if k > 0 then NextReplaced(t1, pte[..], runs, k - 1, block.self) else pte[..] == t1
      ensures Fields(head, remain, Add(runs, k, Run(block.self, block.size)))
    {
      hide PrevReplaced, NextReplaced;
      if next.size != 0 {
        LinkNext(next, block.self, k);
      } else {
        PutMaxSize(block.size);
      }
      t1 := pte[..];
      if prev.size != 0 {
        LinkPrev(prev, block.self, k);
      } else {
        head := block.self;
      }
    }

    method LinkNext(next: Block, self: nat, ghost k: nat)
      requires pte.Length == ENTRIES && self < ENTRIES && k < |runs|
      requires IsRecord(next, runs[k], PrevOf(runs, k), NextOf(runs, k))
      requires 1 <= runs[k].size && runs[k].self + runs[k].size <= ENTRIES
      requires forall j :: 0 <= j < |runs| ==> runs[j].self < ENTRIES
      modifies pte
      ensures PrevReplaced(old(pte[..]), pte[..], runs, k, self)
    {
      var n := next.(prev := self, prevValid := true);
      PutLinks(pte[..], n, self, NextOf(runs, k));
      Put(n);
    }

    method LinkPrev(prev: Block, self: nat, ghost k: nat)
      requires pte.Length == ENTRIES && self < ENTRIES && 0 < k <= |runs|
      requires IsRecord(prev, runs[k - 1], PrevOf(runs, k - 1), NextOf(runs, k - 1))
      requires 1 <= runs[k - 1].size && runs[k - 1].self + runs[k - 1].size <= ENTRIES
      requires forall j :: 0 <= j < |runs| ==> runs[j].self < ENTRIES
      modifies pte
      ensures NextReplaced(old(pte[..]), pte[..], runs, k - 1, self)
    {
      var p := prev.(next := self, nextValid := true);
      PutLinks(pte[..], p, PrevOf(runs, k - 1), self);
      Put(p);
    }

    /** Puts a run into the list; the links of the record are a hint where. */
    method Insert(block: Block, ghost at: nat)
      requires Linked()
      requires block.size > 0 ==> MaximalRun(pte[..], Run(block.self, block.size))
      requires block.size > 0 ==> forall j :: 0 <= j < |runs| ==> runs[j].self != block.self
      requires Hint(block, runs, at) || (!block.prevValid && !block.nextValid)
      modifies this`head, this`remain, this`runs, pte
      ensures Linked() && SameUse(old(pte[..]), pte[..])
      ensures block.size == 0 ==>
        runs == old(runs) && pte[..] == old(pte[..]) && head == old(head) && remain == old(remain)
      ensures block.size > 0 ==> AddedTo(old(runs), runs, Run(block.self, block.size))
    {
      if block.size == 0 {
        SameUseReflexive(pte[..]);
        return;
      }
      var prev, next;
      ghost var k;
      prev, next, k := FindPlace(block, at);
      LinkIn(block, prev, next, k);
    }

    /** imp_reserve_any.  The source returns the address of the first page, 0 for none. */
    method ReserveAny(count: nat) returns (res: Option<nat>)
      requires Valid() && 0 < count <= ENTRIES
      modifies this`head, this`remain, this`runs, pte
      ensures Valid()
      ensures res.None? <==> Cramped(old(pte[..]), count)
      ensures res.None? ==> pte[..] == old(pte[..]) && head == old(head) && remain == old(remain)
      ensures res.Some? ==> Reserved(old(pte[..]), pte[..], res.value, count)
      ensures res.Some? ==> exists r :: TightestFit(old(pte[..]), r, count) && res.value + count == r.self + r.size
    {
      FieldIsCramped(count);
      if GetMaxSize() < count {
        return None;
      }
      RunBounds(pte[..], runs);
      FieldLaws(MaxSize(runs));
      var block;
      ghost var k;
      block, k := FirstFit(count);
      FirstFitIsTightest(pte[..], runs, k, count);
      block := ResolvePrior(block, k);
      res := Some(block.self + block.size - count);
      CarveTail(block, k, count);
    }

    /** Walks the list for the first run that is large enough.  Reaching the
        end of the list is the source's bugcheck. */
    method FirstFit(count: nat) returns (block: Block, ghost k: nat)
      requires Linked() && MaxSize(runs) >= count > 0
      ensures k < |runs| && runs[k].size >= count
      ensures forall j :: 0 <= j < k ==> runs[j].size < count
      ensures IsRecord(block, runs[k], PrevOf(runs, k), NextOf(runs, k))
    {
      RunBounds(pte[..], runs);
      hide Linked;
      var cur := head;
      k := 0;
      block := ReadRun(cur, NoBlock, 0);
      while block.size < count
        invariant k < |runs|
        invariant forall j :: 0 <= j < k ==> runs[j].size < count
        invariant IsRecord(block, runs[k], PrevOf(runs, k), NextOf(runs, k))
        decreases |runs| - k
      {
        k := k + 1;
        cur := block.next;
        block := ReadRun(cur, block, k);
      }
    }

    /** Takes the last `count` entries of run k. */
    method CarveTail(block: Block, ghost k: nat, count: nat)
      requires Valid() && k < |runs|
      requires IsLinked(block, runs[k], PrevOf(runs, k), NextOf(runs, k))
      requires 0 < count <= block.size
      modifies this`head, this`remain, this`runs, pte
      ensures Valid()
      ensures Reserved(old(pte[..]), pte[..], old(runs[k].self + runs[k].size) - count, count)
    {
      hide *;
      ghost var t, r := pte[..], runs[k];
      DropHint(block, runs, k);
      RecordOf(block, runs, k);
      var first := block.self + block.size - count;
      CutOut(block, k, first, count);
      ghost var t2, M := pte[..], runs;
      PutBack(block.(size := block.size - count), k, r, count);
      CarvedCovers(t2, pte[..], M, runs, r, first, count);
      BecomesValid();
      ReservedThen(t, t2, pte[..], first, count);
    }

    method PutBack(rest: Block, ghost at: nat, ghost r: Run, ghost count: nat)
      requires Linked() && Remnants(pte[..], runs, r, r.self + rest.size, count)
      requires rest.self == r.self && Hint(rest, runs, at)
      modifies this`head, this`remain, this`runs, pte
      ensures Linked() && SameUse(old(pte[..]), pte[..])
      ensures if rest.size > 0 then AddedTo(old(runs), runs, Run(r.self, rest.size)) else runs == old(runs)
    {
      RemnantBounds(pte[..], runs, r, r.self + rest.size, count);
      Insert(rest, at);
    }

    /** imp_reserve_fixed: all of the requested entries or none. */
    method ReserveFixed(index: nat, count: nat) returns (ok: bool)
      requires Valid() && 0 < count && index + count <= ENTRIES
      modifies this`head, this`remain, this`runs, pte
      ensures Valid()
      ensures ok <==> AllUnused(old(pte[..]), index, count)
      ensures ok ==> Reserved(old(pte[..]), pte[..], index, count)
      ensures !ok ==> pte[..] == old(pte[..]) && head == old(head) && remain == old(remain)
    {
      hide *;
      ghost var t := pte[..];
      ValidFacts();
      Probe(t, index, count);
      if pte[index].present || pte[index].preserve {
        return false;
      }
      ghost var k := RunAt(t, runs, index);
      ghost var r := runs[k];
      ListedIsMaximal(t, runs, k);
      var block := ReadRun(index, NoBlock, k);
      RecordSize(block, runs, k);
      RunHolds(t, r, index, count);
      if index + count > block.self + block.size {
        return false;
      }
      block := ResolvePrior(block, k);
      RecordOf(block, runs, k);
      DropHint(block, runs, k);
      CutOut(block, k, index, count);
      ghost var t2 := pte[..];
      BothRemnants(t2, runs, r, index, count);
      var small := Block(index + count, 0, 0, block.self + block.size - (index + count), false, false);
      var large := block.(size := index - block.self);
      if small.size > large.size {
        large, small := large.(self := small.self, size := small.size), small.(self := large.self, size := large.size);
      }
      HintStays(block, large, runs, k);
      PutBackBoth(large, k, small);
      ReservedThen(t, t2, pte[..], index, count);
      return true;
    }

    /** Puts two records back into the list: one keeps its links as a hint, one has none. */
    method PutBackBoth(x: Block, ghost at: nat, y: Block)
      requires Linked() && Insertable(pte[..], runs, Run(x.self, x.size))
        && Insertable(pte[..], runs, Run(y.self, y.size))
      requires x.self != y.self && Hint(x, runs, at) && !y.prevValid && !y.nextValid
      requires CoversTwo(pte[..], runs, Run(x.self, x.size), Run(y.self, y.size))
      modifies this`head, this`remain, this`runs, pte
      ensures Valid() && SameUse(old(pte[..]), pte[..])
    {
      hide *;
      ghost var t, L := pte[..], runs;
      InsertableFacts(t, L, Run(x.self, x.size));
      Insert(x, at);
      ghost var t1, M := pte[..], runs;
      OneInserted(t, t1, L, M, Run(x.self, x.size), Run(y.self, y.size));
      InsertableFacts(t1, M, Run(y.self, y.size));
      Insert(y, 0);
      TwoInserted(t1, pte[..], M, runs, Run(y.self, y.size));
      SameUseTransitive(t, t1, pte[..]);
      BecomesValid();
    }

    /** imp_release: gives the frames of committed entries back to the page
        allocator, makes all the entries unused and merges them with the runs on
        either side.  `dropped` is what the source subtracts from used_pages. */
    method Release(pm: PM, index: nat, count: nat) returns (dropped: nat)
      requires Valid() && 0 < count && index + count <= ENTRIES
      requires AllHeld(pte[..], index, count) && DistinctFrames(pte[..], index, count)
      requires pm.Valid() && |FramesIn(pte[..], index, count)| <= pm.used
      requires forall f :: f in FramesIn(pte[..], index, count) ==> f < pm.bmpSize && f !in pm.free
      modifies this`head, this`remain, this`runs, pte, pm`used, pm`free, pm.bmp
      ensures Valid() && pm.Valid()
      ensures Released(old(pte[..]), pte[..], index, count)
      ensures dropped == |FramesIn(old(pte[..]), index, count)|
      ensures pm.free == old(pm.free) + FramesIn(old(pte[..]), index, count)
      ensures pm.used == old(pm.used) - dropped
    {
      hide *;
      ghost var t := pte[..];
      ValidFacts();
      var block;
      ghost var at, P, A;
      block, at, P, A := Detach(index, count);
      ghost var t1, L := pte[..], runs;
      HeldSameUse(t, t1, index, count);
      LinkedFacts();
      dropped := ClearRange(pm, index, count);
      ghost var t2 := pte[..];
      ClearedChain(t1, t2, L, P, A, index, count);
      BecomesLinked();
      Insert(block, at);
      TwoInserted(t2, pte[..], L, runs, Run(P.self, P.size + count + A.size));
      BecomesValid();
      ReleasedThrough(t, t1, t2, pte[..], index, count);
    }

    /** Takes the runs next to the range out of the list and makes the record of
        what the range and they will be together. */
    method Detach(index: nat, count: nat) returns (block: Block, ghost at: nat, ghost P: Run, ghost A: Run)
      requires Valid() && 0 < count && index + count <= ENTRIES && AllHeld(pte[..], index, count)
      modifies this`head, this`remain, this`runs, pte
      ensures Linked() && SameUse(old(pte[..]), pte[..])
      ensures HoleState(pte[..], runs, P, A) && Edges(pte[..], P, A, index, count)
      ensures block.self == P.self && block.size == P.size + count + A.size
      ensures Hint(block, runs, at) || (!block.prevValid && !block.nextValid)
    {
      hide *;
      ghost var t := pte[..];
      P, A := Run(index, 0), Run(index + count, 0);
      ValidFacts();
      HoleStart(t, runs, P, A);
      HeldUsed(t, index, count);
      UnusedIs(t);
      SameUseReflexive(t);
      var hasPrior := index > 0 && !pte[index - 1].present && !pte[index - 1].preserve;
      var hasAfter := index + count < ENTRIES && !pte[index + count].present && !pte[index + count].preserve;
      if hasPrior {
        if hasAfter {
          block, at, A := TakeAfter(index, count);
          HeldSameUse(t, pte[..], index, count);
          SameUseUnused(t, pte[..], index - 1);
          ghost var t0 := pte[..];
          var removedSize := block.size;
          block, at, P := TakePrior(index, count, A);
          HintStays(block, block.(size := block.size + removedSize + count), runs, at);
          block := block.(size := block.size + removedSize + count);
          SameUseTransitive(t, t0, pte[..]);
        } else {
          block, at, P := TakePrior(index, count, A);
          HintStays(block, block.(size := block.size + count), runs, at);
          block := block.(size := block.size + count);
        }
      } else {
        var newSize := count;
        block, at := Block(0, 0, 0, 0, false, false), 0;
        if hasAfter {
          block, at, A := TakeAfter(index, count);
          newSize := newSize + block.size;
          HintStays(block, block.(self := index, size := newSize), runs, at);
        }
        block := block.(self := index, size := newSize);
      }
      EdgesAre(t, P, A, index, count);
      EdgesKept(t, pte[..], P, A, index, count);
    }

    /** What the callbacks of imp_iterate do to an entry that is in use: it stays in use. */
    method Overwrite(i: nat, e: Pte)
      requires Valid() && i < ENTRIES && !Unused(pte[i]) && !Unused(e)
      modifies pte
      ensures Valid() && pte[..] == old(pte[..])[i := e]
    {
      hide *;
      ghost var t := pte[..];
      ValidFacts();
      pte[i] := e;
      OverwriteKeeps(t, pte[..], runs, i);
      BecomesLinked();
      BecomesValid();
    }

    /** Takes the run that starts right after the range out of the list. */
    method TakeAfter(index: nat, count: nat) returns (block: Block, ghost at: nat, ghost A: Run)
      requires Linked() && 0 < count && index + count < ENTRIES
      requires HoleState(pte[..], runs, Run(index, 0), Run(index + count, 0))
      requires AllUsed(pte[..], index, count) && Unused(pte[index + count])
      modifies this`head, this`remain, this`runs, pte
      ensures Linked() && SameUse(old(pte[..]), pte[..])
      ensures HoleState(pte[..], runs, Run(index, 0), A)
      ensures A.self == index + count && A.size > 0
      ensures block.size == A.size && Hint(block, runs, at)
    {
      hide *;
      ghost var t, L := pte[..], runs;
      LinkedFacts();
      HoleCovers(t, L, Run(index, 0), Run(index + count, 0), index + count);
      block, at := TakeOut(index + count);
      LinkedFacts();
      A := L[at];
      HoleSwap(t, L, Run(index, 0), Run(index + count, 0));
      HoleGrow(t, pte[..], L, at, Run(index + count, 0), Run(index, 0));
      HoleSwap(pte[..], runs, A, Run(index, 0));
      ListedIsMaximal(t, L, at);
      AfterRun(t, A, index, count);
    }

    /** Takes the run that ends right before the range out of the list. */
    method TakePrior(index: nat, count: nat, ghost A: Run) returns (block: Block, ghost at: nat, ghost P: Run)
      requires Linked() && 0 < index && 0 < count && index + count <= ENTRIES
      requires HoleState(pte[..], runs, Run(index, 0), A) && A.self == index + count
      requires AllUsed(pte[..], index, count) && Unused(pte[index - 1])
      modifies this`head, this`remain, this`runs, pte
      ensures Linked() && SameUse(old(pte[..]), pte[..])
      ensures HoleState(pte[..], runs, P, A)
      ensures P.self + P.size == index && P.size > 0
      ensures block.self == P.self && block.size == P.size && Hint(block, runs, at)
    {
      hide *;
      ghost var t, L := pte[..], runs;
      LinkedFacts();
      HoleCovers(t, L, Run(index, 0), A, index - 1);
      block, at := TakeOut(index - 1);
      LinkedFacts();
      P := L[at];
      HoleGrow(t, pte[..], L, at, Run(index, 0), A);
      ListedIsMaximal(t, L, at);
      PriorRun(t, P, index, count);
    }

    /** get, resolve_prior and erase of the run that entry i is part of. */
    method TakeOut(i: nat) returns (block: Block, ghost k: nat)
      requires Linked() && i < ENTRIES && InSome(runs, i)
      modifies this`head, this`remain, this`runs, pte
      ensures Linked() && SameUse(old(pte[..]), pte[..])
      ensures k < |old(runs)| && old(runs)[k].Has(i) && runs == Drop(old(runs), k)
      ensures block.self == old(runs)[k].self && block.size == old(runs)[k].size
      ensures Hint(block, runs, k)
    {
      k :| k < |runs| && runs[k].Has(i);
      hide *;
      block := ReadRun(i, NoBlock, k);
      block := ResolvePrior(block, k);
      RecordOf(block, runs, k);
      DropHint(block, runs, k);
      Erase(block, k);
    }

    method ClearRange(pm: PM, index: nat, count: nat) returns (dropped: nat)
      requires index + count <= pte.Length
      requires AllHeld(pte[..], index, count) && DistinctFrames(pte[..], index, count)
      requires pm.Valid() && |FramesIn(pte[..], index, count)| <= pm.used
      requires forall f :: f in FramesIn(pte[..], index, count) ==> f < pm.bmpSize && f !in pm.free
      modifies pte, pm`used, pm`free, pm.bmp
      ensures pm.Valid()
      ensures Cleared(old(pte[..]), pte[..], index, count)
      ensures dropped == |FramesIn(old(pte[..]), index, count)|
      ensures pm.free == old(pm.free) + FramesIn(old(pte[..]), index, count)
      ensures pm.used == old(pm.used) - dropped
    {
      hide *;
      ghost var t, free := pte[..], pm.free;
      dropped := 0;
      FramesNone(t, index);
      ClearedNone(t, index);
      for i := 0 to count
        invariant pm.Valid()
        invariant pte.Length == |t| && Cleared(t, pte[..], index, i)
        invariant dropped == |FramesIn(t, index, i)| && pm.used == old(pm.used) - dropped
        invariant pm.free == free + FramesIn(t, index, i)
      {
        FramesStep(t, index, i, count);
        ClearedAt(t, pte[..], index, i, count);
        ghost var t0 := pte[..];
        var one := ClearEntry(pm, index + i);
        dropped := dropped + one;
        ClearedStep(t, t0, pte[..], index, i, count);
        UnionStep(free, FramesIn(t, index, i), if one == 1 then {t[index + i].frame} else {});
      }
    }

    /** One entry of that loop. */
    method ClearEntry(pm: PM, k: nat) returns (one: nat)
      requires pm.Valid() && k < pte.Length
      requires pte[k].present && pte[k].frame != 0 ==>
        pm.used > 0 && pte[k].frame < pm.bmpSize && pte[k].frame !in pm.free
      modifies pte, pm`used, pm`free, pm.bmp
      ensures pm.Valid()
      ensures pte[..] == old(pte[..])[k := if old(pte[k]).present && old(pte[k]).frame != 0
                          then old(pte[k]).(present := false, frame := 0, preserve := false)
                          else old(pte[k]).(preserve := false)]
      ensures one == if old(pte[k]).present && old(pte[k]).frame != 0 then 1 else 0
      ensures pm.free == old(pm.free) + if one == 1 then {old(pte[k]).frame} else {}
      ensures pm.used == old(pm.used) - one
    {
      hide *;
      var cur := pte[k];
      one := 0;
      if cur.present && cur.frame != 0 {
        pm.Release(cur.frame);
        pte[k] := cur.(present := false, frame := 0, preserve := false);
        one := 1;
      } else {
        pte[k] := cur.(preserve := false);
      }
    }

    /** Erases run k and reserves a stretch of it.  What is left of the run on
        either side is maximal, but not yet back in the list. */
    method CutOut(block: Block, ghost k: nat, first: nat, count: nat)
      requires Valid() && k < |runs|
      requires IsLinked(block, runs[k], PrevOf(runs, k), NextOf(runs, k))
      requires block.self <= first && first + count <= block.self + block.size && 0 < count
      modifies this`head, this`remain, this`runs, pte
      ensures Linked() && runs == Drop(old(runs), k)
      ensures Reserved(old(pte[..]), pte[..], first, count)
      ensures Remnants(pte[..], runs, old(runs[k]), first, count)
    {
      ghost var L, t, r := runs, pte[..], runs[k];
      assert MaximalRun(t, r);
      Erase(block, k);
      ghost var t1 := pte[..];
      DroppedHole(t, t1, L, k);
      MarkReserved(first, count);
      hide Chain, Covers, Hole, SameUse, MaximalRun, Marked, Reserved, Remnants;
      MarkedChain(t1, pte[..], runs, r, first, count);
      SameUseReflexive(pte[..]);
      ReservedThrough(t, t1, pte[..], pte[..], first, count);
    }

    method MarkReserved(first: nat, count: nat)
      requires first + count <= pte.Length
      modifies pte
      ensures Marked(old(pte[..]), pte[..], first, count)
    {
      for i := 0 to count
        invariant forall j :: 0 <= j < pte.Length ==>
                    pte[j] == if first <= j < first + i then old(pte[j]).(preserve := true) else old(pte[j])
      {
        pte[first + i] := pte[first + i].(preserve := true);
      }
    }
  }

  /** The entries [first, first + count) have become reserved, nothing else has changed. */
  ghost predicate Marked(t: seq<Pte>, t': seq<Pte>, first: nat, count: nat) {
    |t'| == |t| && forall j :: 0 <= j < |t| ==>
      t'[j] == if first <= j < first + count then t[j].(preserve := true) else t[j]
  }

  /** As Marked, but for list bookkeeping; and the entries were unused before. */
  ghost predicate Reserved(t: seq<Pte>, t': seq<Pte>, first: nat, count: nat) {
    && |t'| == |t| && first + count <= |t|
    && (forall j :: first <= j < first + count ==> Unused(t[j]))
    && (forall j :: 0 <= j < |t| ==>
          Bare(t'[j]) == if first <= j < first + count then Bare(t[j]).(preserve := true) else Bare(t[j]))
  }

  /** No maximal run is large enough, even after the rounding of the size field. */
  ghost predicate Cramped(t: seq<Pte>, count: nat) {
    forall r :: MaximalRun(t, r) ==> Decode(Encode(r.size)) < count
  }

  /** r is a smallest maximal run of at least `count` entries. */
  ghost predicate TightestFit(t: seq<Pte>, r: Run, count: nat) {
    && MaximalRun(t, r) && r.size >= count
    && forall q :: MaximalRun(t, q) && q.size >= count ==> r.size <= q.size
  }

  predicate AllUnused(t: seq<Pte>, first: nat, count: nat)
    requires first + count <= |t|
  {
    forall j :: first <= j < first + count ==> Unused(t[j])
  }

  lemma Probe(t: seq<Pte>, first: nat, count: nat)
    requires 0 < count && first + count <= |t|
    ensures Unused(t[first]) <==> !t[first].present && !t[first].preserve
    ensures !Unused(t[first]) ==> !AllUnused(t, first, count)
  {
  }

  lemma ListedIsMaximal(t: seq<Pte>, L: seq<Run>, k: nat)
    requires Chain(t, L) && k < |L|
    ensures MaximalRun(t, L[k])
  {
  }

  /** The run that entry i is part of. */
  lemma RunAt(t: seq<Pte>, L: seq<Run>, i: nat) returns (k: nat)
    requires Covers(t, L, 0, 0) && i < |t| && Unused(t[i])
    ensures k < |L| && L[k].Has(i)
  {
    assert InSome(L, i);
    k :| 0 <= k < |L| && L[k].Has(i);
  }

  const ZERO := Pte(false, false, Attributes(false, false, false, false, false, false), OFF, false, 0, 0, false, false)

  lemma WholeTable(t: seq<Pte>, t': seq<Pte>)
    requires |t| == ENTRIES && (forall i :: 0 <= i < ENTRIES ==> t[i] == ZERO) && SameUse(t, t')
    requires Written(t', Run(0, ENTRIES), -1, -1)
    ensures AllUnused(t', 0, ENTRIES) && Chain(t', [Run(0, ENTRIES)]) && Covers(t', [Run(0, ENTRIES)], 0, 0)
    ensures forall i :: 0 <= i < ENTRIES ==> !t'[i].bypass && t'[i].frame == 0 && Bare(t'[i]) == ZERO
  {
    var L := [Run(0, ENTRIES)];
    forall i | 0 <= i < ENTRIES
      ensures Bare(t'[i]) == ZERO && Unused(t'[i]) && !t'[i].bypass && t'[i].frame == 0 && InSome(L, i)
    {
      assert Bare(t'[i]) == Bare(t[i]);
      assert Bare(t'[i]).present == t'[i].present && Bare(t'[i]).preserve == t'[i].preserve;
      assert Bare(t'[i]).bypass == t'[i].bypass && Bare(t'[i]).frame == t'[i].frame;
      assert L[0].Has(i);
    }
  }

  lemma OnceEach(L: seq<Run>, r: Run)
    requires Ascending(L)
    ensures multiset(L)[r] <= 1
  {
    if |L| > 0 {
      var M := L[..|L| - 1];
      assert L == M + [L[|L| - 1]];
      OnceEach(M, r);
      if L[|L| - 1] == r {
        assert r !in M;
      }
    }
  }

  /** A stretch that starts inside a maximal run is unused exactly when it ends inside it. */
  lemma RunHolds(t: seq<Pte>, r: Run, first: nat, count: nat)
    requires MaximalRun(t, r) && r.Has(first) && first + count <= ENTRIES
    ensures r.self <= first
    ensures AllUnused(t, first, count) <==> first + count <= r.self + r.size
  {
    if first + count > r.self + r.size {
      assert !Unused(t[r.self + r.size]);
    }
  }

  lemma RecordSize(b: Block, L: seq<Run>, k: nat)
    requires k < |L| && IsRecord(b, L[k], PrevOf(L, k), NextOf(L, k))
    ensures b.self == L[k].self && b.size == L[k].size
  {
  }

  /** r is empty, or a maximal run that is not in the list. */
  ghost predicate Insertable(t: seq<Pte>, L: seq<Run>, r: Run) {
    r.size > 0 ==> MaximalRun(t, r) && forall j :: 0 <= j < |L| ==> L[j].self != r.self
  }

  lemma InsertableFacts(t: seq<Pte>, L: seq<Run>, r: Run)
    requires Insertable(t, L, r)
    ensures r.size > 0 ==> MaximalRun(t, r)
    ensures r.size > 0 ==> forall j :: 0 <= j < |L| ==> L[j].self != r.self
  {
  }

  ghost predicate CoversTwo(t: seq<Pte>, L: seq<Run>, a: Run, b: Run) {
    forall i :: 0 <= i < |t| && Unused(t[i]) ==> InSome(L, i) || a.Has(i) || b.Has(i)
  }

  lemma BothRemnants(t: seq<Pte>, L: seq<Run>, r: Run, first: nat, count: nat)
    requires Remnants(t, L, r, first, count)
    ensures var a := Run(r.self, first - r.self);
            var b := Run(first + count, r.self + r.size - (first + count));
            && Insertable(t, L, a) && Insertable(t, L, b)
            && CoversTwo(t, L, a, b) && CoversTwo(t, L, b, a)
  {
  }

  lemma OneInserted(t: seq<Pte>, t': seq<Pte>, L: seq<Run>, M: seq<Run>, x: Run, y: Run)
    requires CoversTwo(t, L, x, y) && SameUse(t, t') && Insertable(t, L, y) && x.self != y.self
    requires if x.size > 0 then AddedTo(L, M, x) else M == L
    ensures Insertable(t', M, y) && CoversBut(t', M, y, 0, 0)
  {
    SameUseMaximal(t, t', y);
    if x.size > 0 {
      InsertedCovers(t, t', L, M, x, y.self, y.self + y.size);
    } else {
      forall i | 0 <= i < |t'| && Unused(t'[i]) ensures InSome(M, i) || y.Has(i) {
        SameUseUnused(t, t', i);
      }
    }
  }

  lemma TwoInserted(t: seq<Pte>, t': seq<Pte>, L: seq<Run>, M: seq<Run>, y: Run)
    requires CoversBut(t, L, y, 0, 0) && SameUse(t, t')
    requires if y.size > 0 then AddedTo(L, M, y) else M == L
    ensures Covers(t', M, 0, 0)
  {
    if y.size > 0 {
      InsertedCovers(t, t', L, M, y, 0, 0);
    } else {
      forall i | 0 <= i < |t'| && Unused(t'[i]) ensures InSome(M, i) {
        SameUseUnused(t, t', i);
      }
    }
  }

  /** What imp_release makes of an entry. */
  function Vacated(e: Pte): Pte {
    if e.present then e.(present := false, frame := 0, preserve := false) else e.(preserve := false)
  }

  ghost predicate Cleared(t: seq<Pte>, t': seq<Pte>, first: nat, count: nat) {
    |t'| == |t| && forall j :: 0 <= j < |t| ==>
      t'[j] == if first <= j < first + count then Vacated(t[j]) else t[j]
  }

  lemma ClearedNone(t: seq<Pte>, first: nat)
    ensures Cleared(t, t, first, 0)
  {
  }

  lemma ClearedAt(t: seq<Pte>, t': seq<Pte>, first: nat, i: nat, count: nat)
    requires Cleared(t, t', first, i) && i < count && first + count <= |t|
    ensures |t'| == |t| && t'[first + i] == t[first + i]
  {
  }

  lemma ClearedStep(t: seq<Pte>, t1: seq<Pte>, t2: seq<Pte>, first: nat, i: nat, count: nat)
    requires Cleared(t, t1, first, i) && i < count && first + count <= |t|
    requires AllHeld(t, first, count)
    requires |t1| == |t| && t2 == t1[first + i := if t[first + i].present && t[first + i].frame != 0
                          then t[first + i].(present := false, frame := 0, preserve := false)
                          else t[first + i].(preserve := false)]
    ensures Cleared(t, t2, first, i + 1)
  {
    assert Held(t[first + i]);
  }

  /** The entries [first, first + count) are unused again, nothing else has changed. */
  ghost predicate Released(t: seq<Pte>, t': seq<Pte>, first: nat, count: nat) {
    && |t'| == |t| && first + count <= |t|
    && forall j :: 0 <= j < |t| ==>
         Bare(t'[j]) == if first <= j < first + count
           then Bare(t[j]).(present := false, preserve := false, frame := if t[j].present then 0 else t[j].frame)
           else Bare(t[j])
  }

  /** Committed with a frame, or reserved. */
  predicate Held(e: Pte) {
    if e.present then e.frame != 0 else e.preserve
  }

  ghost predicate AllHeld(t: seq<Pte>, first: nat, count: nat)
    requires first + count <= |t|
  {
    forall j :: first <= j < first + count ==> Held(t[j])
  }

  ghost predicate AllUsed(t: seq<Pte>, first: nat, count: nat)
    requires first + count <= |t|
  {
    forall j :: first <= j < first + count ==> !Unused(t[j])
  }

  /** No two committed entries of the range map the same frame. */
  ghost predicate DistinctFrames(t: seq<Pte>, first: nat, count: nat)
    requires first + count <= |t|
  {
    forall i, j :: first <= i < j < first + count && t[i].present && t[j].present ==> t[i].frame != t[j].frame
  }

  ghost function FramesIn(t: seq<Pte>, first: nat, count: nat): set<nat>
    requires first + count <= |t|
  {
    set j | first <= j < first + count && t[j].present :: t[j].frame
  }

  lemma FramesNone(t: seq<Pte>, first: nat)
    requires first <= |t|
    ensures FramesIn(t, first, 0) == {}
  {
  }

  lemma UnionStep(a: set<nat>, b: set<nat>, c: set<nat>)
    ensures a + b + c == a + (b + c)
  {
  }

  lemma FramesStep(t: seq<Pte>, first: nat, i: nat, count: nat)
    requires i < count && first + count <= |t| && DistinctFrames(t, first, count) && AllHeld(t, first, count)
    ensures t[first + i].present ==> t[first + i].frame !in FramesIn(t, first, i)
    ensures t[first + i].present ==> t[first + i].frame != 0
    ensures FramesIn(t, first, i + 1) ==
            FramesIn(t, first, i) + if t[first + i].present then {t[first + i].frame} else {}
    ensures |FramesIn(t, first, i + 1)| == |FramesIn(t, first, i)| + if t[first + i].present then 1 else 0
    ensures t[first + i].present ==> t[first + i].frame in FramesIn(t, first, count)
    ensures |FramesIn(t, first, i + 1)| <= |FramesIn(t, first, count)|
  {
    assert Held(t[first + i]);
    FramesNext(t, first, i);
    FramesWithin(t, first, i + 1, count);
    hide FramesIn;
    Subset(FramesIn(t, first, i + 1), FramesIn(t, first, count));
  }

  lemma FramesNext(t: seq<Pte>, first: nat, i: nat)
    requires first + i < |t|
    ensures FramesIn(t, first, i + 1) ==
            FramesIn(t, first, i) + if t[first + i].present then {t[first + i].frame} else {}
  {
  }

  lemma FramesWithin(t: seq<Pte>, first: nat, i: nat, count: nat)
    requires i <= count && first + count <= |t|
    ensures FramesIn(t, first, i) <= FramesIn(t, first, count)
  {
  }

  lemma {:induction false} Subset(a: set<nat>, b: set<nat>)
    requires a <= b
    ensures |a| <= |b|
  {
    if a != {} {
      var x :| x in a;
      Subset(a - {x}, b - {x});
    }
  }

  lemma HeldUsed(t: seq<Pte>, first: nat, count: nat)
    requires first + count <= |t| && AllHeld(t, first, count)
    ensures AllUsed(t, first, count)
  {
    forall j | first <= j < first + count ensures !Unused(t[j]) {
      assert Held(t[j]);
    }
  }

  lemma UnusedIs(t: seq<Pte>)
    ensures forall j :: 0 <= j < |t| ==> (Unused(t[j]) <==> !t[j].present && !t[j].preserve)
  {
  }

  /** List bookkeeping does not change what a range holds. */
  lemma HeldSameUse(t: seq<Pte>, t': seq<Pte>, first: nat, count: nat)
    requires SameUse(t, t') && first + count <= |t|
    ensures AllHeld(t, first, count) ==> AllHeld(t', first, count)
    ensures AllUsed(t, first, count) ==> AllUsed(t', first, count)
    ensures DistinctFrames(t, first, count) ==> DistinctFrames(t', first, count)
    ensures FramesIn(t, first, count) == FramesIn(t', first, count)
  {
    forall j | 0 <= j < |t|
      ensures t'[j].present == t[j].present && t'[j].frame == t[j].frame && t'[j].preserve == t[j].preserve
    {
      assert Bare(t'[j]) == Bare(t[j]);
      assert Bare(t'[j]).frame == t'[j].frame && Bare(t'[j]).present == t'[j].present
        && Bare(t'[j]).preserve == t'[j].preserve;
    }
    assert AllHeld(t, first, count) ==> forall j :: first <= j < first + count ==> Held(t[j]) && Held(t'[j]);
    assert FramesIn(t, first, count) == FramesIn(t', first, count) by {
      assert forall j :: first <= j < first + count && t[j].present ==> t'[j].present && t'[j].frame == t[j].frame;
      assert forall j :: first <= j < first + count && t'[j].present ==> t[j].present && t[j].frame == t'[j].frame;
    }
  }

  /** The list without the runs P and A, which may be empty. */
  ghost predicate HoleState(t: seq<Pte>, L: seq<Run>, P: Run, A: Run) {
    Chain(t, L) && Insertable(t, L, P) && Insertable(t, L, A) && CoversTwo(t, L, P, A)
  }

  lemma HoleStart(t: seq<Pte>, L: seq<Run>, P: Run, A: Run)
    requires Chain(t, L) && Covers(t, L, 0, 0) && P.size == 0 && A.size == 0
    ensures HoleState(t, L, P, A)
  {
  }

  lemma HoleSwap(t: seq<Pte>, L: seq<Run>, P: Run, A: Run)
    requires HoleState(t, L, P, A)
    ensures HoleState(t, L, A, P)
  {
  }

  lemma HoleCovers(t: seq<Pte>, L: seq<Run>, P: Run, A: Run, i: nat)
    requires HoleState(t, L, P, A) && i < |t| && Unused(t[i])
    requires !(P.self <= i < P.self + P.size) && !(A.self <= i < A.self + A.size)
    ensures InSome(L, i)
  {
  }

  /** Taking run k out of the list fills the empty place P. */
  lemma HoleGrow(t: seq<Pte>, t': seq<Pte>, L: seq<Run>, k: nat, P: Run, A: Run)
    requires HoleState(t, L, P, A) && P.size == 0 && k < |L|
    requires SameUse(t, t') && Chain(t', Drop(L, k))
    ensures HoleState(t', Drop(L, k), L[k], A)
  {
    SameUseMaximal(t, t', L[k]);
    SameUseMaximal(t, t', A);
    var M := Drop(L, k);
    forall j | 0 <= j < |M| ensures M[j].self != L[k].self && (A.size > 0 ==> M[j].self != A.self) {
      assert M[j] == L[if j < k then j else j + 1];
    }
    forall i | 0 <= i < |t'| && Unused(t'[i]) ensures InSome(M, i) || L[k].Has(i) || A.Has(i) {
      SameUseUnused(t, t', i);
      if InSome(L, i) {
        InSomeDrop(L, k, i);
      }
    }
  }

  lemma AfterRun(t: seq<Pte>, r: Run, first: nat, count: nat)
    requires MaximalRun(t, r) && r.Has(first + count) && 0 < count
    requires first + count <= |t| && AllUsed(t, first, count)
    ensures r.self == first + count && r.size > 0
  {
    UsedOutside(t, r, first + count - 1);
  }

  lemma PriorRun(t: seq<Pte>, r: Run, first: nat, count: nat)
    requires 0 < first && MaximalRun(t, r) && r.Has(first - 1) && 0 < count
    requires first + count <= |t| && AllUsed(t, first, count)
    ensures r.self + r.size == first && r.size > 0
  {
    UsedOutside(t, r, first);
  }

  /** The entries next to the range are in P and A, or they are used. */
  ghost predicate Edges(t: seq<Pte>, P: Run, A: Run, first: nat, count: nat) {
    && first + count <= |t| == ENTRIES && 0 < count
    && P.self + P.size == first && A.self == first + count
    && (P.size == 0 ==> first == 0 || !Unused(t[first - 1]))
    && (A.size == 0 ==> first + count == ENTRIES || !Unused(t[first + count]))
  }

  lemma EdgesAre(t: seq<Pte>, P: Run, A: Run, first: nat, count: nat)
    requires first + count <= |t| == ENTRIES && 0 < count
    requires P.self + P.size == first && A.self == first + count
    requires P.size == 0 ==> first == 0 || !Unused(t[first - 1])
    requires A.size == 0 ==> first + count == ENTRIES || !Unused(t[first + count])
    ensures Edges(t, P, A, first, count)
  {
  }

  lemma EdgesKept(t: seq<Pte>, t': seq<Pte>, P: Run, A: Run, first: nat, count: nat)
    requires SameUse(t, t') && Edges(t, P, A, first, count)
    ensures Edges(t', P, A, first, count)
  {
    if first > 0 {
      SameUseUnused(t, t', first - 1);
    }
    if first + count < ENTRIES {
      SameUseUnused(t, t', first + count);
    }
  }

  /** A run of the list does not reach the range, P or A. */
  lemma FarFromHole(t: seq<Pte>, L: seq<Run>, P: Run, A: Run, first: nat, count: nat, j: nat)
    requires HoleState(t, L, P, A) && Edges(t, P, A, first, count) && AllUsed(t, first, count) && j < |L|
    ensures L[j].self + L[j].size < P.self || A.self + A.size < L[j].self
  {
    assert Unused(t[L[j].self]);
    UsedOutside(t, L[j], first);
    UsedOutside(t, L[j], first + count - 1);
    if P.size > 0 {
      MaximalDisjoint(t, L[j], P);
    } else if first > 0 {
      UsedOutside(t, L[j], first - 1);
    }
    if A.size > 0 {
      MaximalDisjoint(t, L[j], A);
    } else if first + count < ENTRIES {
      UsedOutside(t, L[j], first + count);
    }
  }

  lemma ClearedOther(t: seq<Pte>, t': seq<Pte>, m: Run, r: Run, p: int, n: int, first: nat, count: nat)
    requires MaximalRun(t, r) && Written(t, r, p, n) && Cleared(t, t', first, count)
    requires r.self + r.size < m.self || m.self + m.size < r.self
    requires m.self <= first && first + count <= m.self + m.size
    ensures MaximalRun(t', r) && Written(t', r, p, n)
  {
  }

  /** Emptying the range makes P, the range and A one maximal run. */
  lemma ClearedChain(t: seq<Pte>, t': seq<Pte>, L: seq<Run>, P: Run, A: Run, first: nat, count: nat)
    requires HoleState(t, L, P, A) && Edges(t, P, A, first, count)
    requires AllHeld(t, first, count) && Cleared(t, t', first, count)
    ensures Chain(t', L)
    ensures var m := Run(P.self, P.size + count + A.size);
            MaximalRun(t', m) && CoversBut(t', L, m, 0, 0) && forall j :: 0 <= j < |L| ==> L[j].self != m.self
  {
    var m := Run(P.self, P.size + count + A.size);
    HeldUsed(t, first, count);
    forall j | 0 <= j < |L|
      ensures MaximalRun(t', L[j]) && WrittenAt(t', L, j) && L[j].self != m.self
    {
      hide *;
      FarFromHole(t, L, P, A, first, count, j);
      HoleRun(t, L, P, A, first, count, j);
      ClearedOther(t, t', m, L[j], PrevOf(L, j), NextOf(L, j), first, count);
      WrittenAtIs(t', L, j);
    }
    ClearedMaximal(t, t', L, P, A, first, count);
    ClearedCovers(t, t', L, P, A, first, count);
  }

  lemma WrittenAtIs(t: seq<Pte>, L: seq<Run>, k: nat)
    requires k < |L|
    ensures WrittenAt(t, L, k) <==> Written(t, L[k], PrevOf(L, k), NextOf(L, k))
  {
  }

  lemma HoleRun(t: seq<Pte>, L: seq<Run>, P: Run, A: Run, first: nat, count: nat, j: nat)
    requires HoleState(t, L, P, A) && Edges(t, P, A, first, count) && j < |L|
    ensures MaximalRun(t, L[j]) && Written(t, L[j], PrevOf(L, j), NextOf(L, j)) && L[j].size > 0
    ensures P.self <= first && first + count <= A.self + A.size && P.self + P.size + count + A.size == A.self + A.size
  {
    assert WrittenAt(t, L, j);
  }

  lemma ClearedMaximal(t: seq<Pte>, t': seq<Pte>, L: seq<Run>, P: Run, A: Run, first: nat, count: nat)
    requires HoleState(t, L, P, A) && Edges(t, P, A, first, count)
    requires AllHeld(t, first, count) && Cleared(t, t', first, count)
    ensures MaximalRun(t', Run(P.self, P.size + count + A.size))
  {
    hide Chain, CoversTwo;
    forall i | first <= i < first + count ensures Unused(t'[i]) {
      assert Held(t[i]);
    }
  }

  lemma ClearedCovers(t: seq<Pte>, t': seq<Pte>, L: seq<Run>, P: Run, A: Run, first: nat, count: nat)
    requires HoleState(t, L, P, A) && Edges(t, P, A, first, count) && Cleared(t, t', first, count)
    ensures CoversBut(t', L, Run(P.self, P.size + count + A.size), 0, 0)
  {
    hide Chain, Insertable;
    forall i | 0 <= i < |t'| && Unused(t'[i])
      ensures InSome(L, i) || Run(P.self, P.size + count + A.size).Has(i)
    {
      if !(first <= i < first + count) {
        assert Unused(t[i]);
      }
    }
  }

  lemma OverwriteKeeps(t: seq<Pte>, t': seq<Pte>, L: seq<Run>, i: nat)
    requires Chain(t, L) && Covers(t, L, 0, 0) && i < |t| && |t| == ENTRIES
    requires |t'| == |t| && t' == t[i := t'[i]] && !Unused(t[i]) && !Unused(t'[i])
    ensures Chain(t', L) && Covers(t', L, 0, 0)
  {
    forall j | 0 <= j < |L| ensures MaximalRun(t', L[j]) && WrittenAt(t', L, j) {
      UsedOutside(t, L[j], i);
      assert WrittenAt(t, L, j);
      KeepWritten(t, t', Run(i, 1), L[j], PrevOf(L, j), NextOf(L, j));
    }
  }

  lemma ReleasedThrough(t: seq<Pte>, t1: seq<Pte>, t2: seq<Pte>, t3: seq<Pte>, first: nat, count: nat)
    requires SameUse(t, t1) && Cleared(t1, t2, first, count) && SameUse(t2, t3) && first + count <= |t|
    ensures Released(t, t3, first, count)
  {
    forall j | 0 <= j < |t|
      ensures Bare(t3[j]) == if first <= j < first + count
        then Bare(t[j]).(present := false, preserve := false, frame := if t[j].present then 0 else t[j].frame)
        else Bare(t[j])
    {
      assert Bare(t3[j]) == Bare(t2[j]);
      assert Bare(t1[j]) == Bare(t[j]);
      assert Bare(Vacated(t1[j])) == Vacated(Bare(t1[j]));
      assert Bare(Vacated(t[j])) == Vacated(Bare(t[j]));
    }
  }

  lemma ReservedThrough(t: seq<Pte>, t1: seq<Pte>, t2: seq<Pte>, t3: seq<Pte>, first: nat, count: nat)
    requires SameUse(t, t1) && Marked(t1, t2, first, count) && SameUse(t2, t3)
    requires first + count <= |t| && forall j :: first <= j < first + count ==> Unused(t[j])
    ensures Reserved(t, t3, first, count)
  {
    forall j | 0 <= j < |t|
      ensures Bare(t3[j]) == if first <= j < first + count then Bare(t[j]).(preserve := true) else Bare(t[j])
    {
      assert Bare(t3[j]) == Bare(t2[j]);
      assert Bare(t1[j]) == Bare(t[j]);
    }
  }

  /** In a valid table the runs of the list are exactly the maximal runs. */
  lemma ListedRun(t: seq<Pte>, L: seq<Run>, r: Run) returns (k: nat)
    requires Chain(t, L) && Covers(t, L, 0, 0) && MaximalRun(t, r)
    ensures k < |L| && L[k] == r
  {
    assert Unused(t[r.self]);
    assert InSome(L, r.self);
    k :| 0 <= k < |L| && L[k].Has(r.self);
    if L[k].self != r.self {
      MaximalDisjoint(t, L[k], r);
      assert false;
    }
    MaximalSame(t, L[k], r);
  }

  lemma FirstFitIsTightest(t: seq<Pte>, L: seq<Run>, k: nat, count: nat)
    requires Chain(t, L) && Covers(t, L, 0, 0) && k < |L|
    requires forall j :: 0 <= j < k ==> L[j].size < count
    requires L[k].size >= count
    ensures TightestFit(t, L[k], count)
  {
    forall q | MaximalRun(t, q) && q.size >= count ensures L[k].size <= q.size {
      var j := ListedRun(t, L, q);
    }
  }

  /** What erasing run k leaves: the rest of the list does not touch the hole. */
  ghost predicate Hole(t: seq<Pte>, L: seq<Run>, r: Run) {
    && MaximalRun(t, r)
    && (forall j :: 0 <= j < |L| ==> L[j].self != r.self)
    && Covers(t, L, r.self, r.self + r.size)
  }

  lemma DroppedHole(t: seq<Pte>, t1: seq<Pte>, L: seq<Run>, k: nat)
    requires Chain(t, L) && Covers(t, L, 0, 0) && k < |L| && SameUse(t, t1)
    ensures Hole(t1, Drop(L, k), L[k])
  {
    SameUseMaximal(t, t1, L[k]);
    forall j | 0 <= j < |Drop(L, k)| ensures Drop(L, k)[j].self != L[k].self {
      assert Drop(L, k)[j] == L[if j < k then j else j + 1];
    }
    forall i | 0 <= i < |t1| && Unused(t1[i])
      ensures InSome(Drop(L, k), i) || L[k].self <= i < L[k].self + L[k].size
    {
      SameUseUnused(t, t1, i);
      assert InSome(L, i);
      InSomeDrop(L, k, i);
    }
  }

  predicate Apart(a: Run, b: Run) {
    a.self + a.size < b.self || b.self + b.size < a.self
  }

  /** The stretch [first, first + count) has been cut out of the unlisted run r. */
  ghost predicate Remnants(t: seq<Pte>, L: seq<Run>, r: Run, first: nat, count: nat) {
    && r.self <= first && first + count <= r.self + r.size
    && (first > r.self ==> MaximalRun(t, Run(r.self, first - r.self)))
    && (first + count < r.self + r.size ==>
          MaximalRun(t, Run(first + count, r.self + r.size - (first + count))))
    && (forall j :: 0 <= j < |L| ==> Apart(L[j], r))
    && (forall i :: 0 <= i < |t| && Unused(t[i]) ==>
          InSome(L, i) || r.self <= i < first || first + count <= i < r.self + r.size)
  }

  /** Reserving entries inside a hole leaves the rest of the list intact. */
  lemma MarkedChain(t: seq<Pte>, t': seq<Pte>, L: seq<Run>, r: Run, first: nat, count: nat)
    requires Chain(t, L) && Hole(t, L, r)
    requires r.self <= first && first + count <= r.self + r.size && 0 < count
    requires Marked(t, t', first, count)
    ensures Chain(t', L) && Remnants(t', L, r, first, count)
  {
    hide WrittenAt, Apart, Ascending;
    forall j | 0 <= j < |L|
      ensures MaximalRun(t', L[j]) && WrittenAt(t', L, j) && Apart(L[j], r)
    {
      MarkedRun(t, t', L, r, first, count, j);
    }
  }

  lemma MarkedRun(t: seq<Pte>, t': seq<Pte>, L: seq<Run>, r: Run, first: nat, count: nat, j: nat)
    requires Chain(t, L) && Hole(t, L, r) && j < |L|
    requires r.self <= first && first + count <= r.self + r.size && 0 < count
    requires Marked(t, t', first, count)
    ensures MaximalRun(t', L[j]) && WrittenAt(t', L, j) && Apart(L[j], r)
  {
    MaximalDisjoint(t, L[j], r);
    assert WrittenAt(t, L, j);
    KeepWritten(t, t', r, L[j], PrevOf(L, j), NextOf(L, j));
  }

  lemma RecordOf(b: Block, L: seq<Run>, k: nat)
    requires k < |L| && IsLinked(b, L[k], PrevOf(L, k), NextOf(L, k))
    ensures b.self == L[k].self && b.size == L[k].size
  {
  }

  lemma LinksOf(b: Block, L: seq<Run>, k: nat)
    requires k < |L| && IsLinked(b, L[k], PrevOf(L, k), NextOf(L, k))
    ensures b.prevValid == (k > 0) && b.nextValid == (k + 1 < |L|)
  {
  }

  /** The size written back by erase encodes the largest run that is left. */
  lemma ErasedField(L: seq<Run>, k: nat, remain: nat, size: nat)
    requires k < |L| && Ascending(L) && MaxSize(L) <= ENTRIES && remain == Encode(MaxSize(L))
    requires size == if k + 1 < |L| then (if L[k + 1].size > Decode(remain) then L[k + 1].size else Decode(remain))
                     else if k > 0 then L[k - 1].size else 0
    ensures size <= ENTRIES && Encode(size) == Encode(MaxSize(Drop(L, k)))
  {
    if k + 1 < |L| {
      FieldLaws(MaxSize(L));
      FieldStable(size, MaxSize(L));
    }
  }

  lemma DroppedFields(b: Block, head: nat, L: seq<Run>, k: nat)
    requires k < |L| && IsLinked(b, L[k], PrevOf(L, k), NextOf(L, k)) && (|L| > 0 ==> head == L[0].self)
    ensures Fields(if b.prevValid then head else b.next, Encode(MaxSize(Drop(L, k))), Drop(L, k))
  {
  }

  lemma HintRuns(b: Block, L: seq<Run>, k: nat)
    requires Hint(b, L, k)
    requires forall j :: 0 <= j < |L| ==> 1 <= L[j].size
    ensures k <= |L| && b.prevValid == (k > 0) && b.nextValid == (k < |L|)
    ensures k > 0 ==> L[k - 1].Has(b.prev)
    ensures k < |L| ==> L[k].Has(b.next)
  {
  }

  lemma SlotsAround(prev: Block, next: Block, L: seq<Run>, k: nat)
    requires k <= |L| && AtSlot(prev, L, k - 1) && AtSlot(next, L, k)
    requires Ascending(L) && forall j :: 0 <= j < |L| ==> 1 <= L[j].size
    ensures prev.size == SizeAt(L, k - 1) && next.size == SizeAt(L, k)
    ensures k < |L| ==> SizeAt(L, k - 1) <= L[k].size
  {
  }

  lemma HintStays(b: Block, b': Block, L: seq<Run>, k: nat)
    requires Hint(b, L, k) && b' == b.(self := b'.self, size := b'.size)
    ensures Hint(b', L, k)
  {
  }

  /** After run k is gone its links are a hint for position k. */
  lemma DropHint(b: Block, L: seq<Run>, k: nat)
    requires k < |L| && IsLinked(b, L[k], PrevOf(L, k), NextOf(L, k))
    ensures Hint(b, Drop(L, k), k)
  {
  }

  /** A stretch of unused entries that no run of L covers. */
  ghost predicate CoversBut(t: seq<Pte>, L: seq<Run>, r: Run, lo: int, hi: int) {
    forall i :: 0 <= i < |t| && Unused(t[i]) ==> InSome(L, i) || r.Has(i) || lo <= i < hi
  }

  lemma InsertedCovers(t: seq<Pte>, t': seq<Pte>, L: seq<Run>, M: seq<Run>, r: Run, lo: int, hi: int)
    requires SameUse(t, t')
    requires CoversBut(t, L, r, lo, hi)
    requires AddedTo(L, M, r)
    ensures Covers(t', M, lo, hi)
  {
    var k :| 0 <= k <= |L| && M == Add(L, k, r);
    forall i | 0 <= i < |t'| && Unused(t'[i]) ensures InSome(M, i) || lo <= i < hi {
      SameUseUnused(t, t', i);
      if InSome(L, i) || r.Has(i) {
        InSomeAdd(L, k, r, i);
      }
    }
  }

  lemma RemnantBounds(t: seq<Pte>, L: seq<Run>, r: Run, first: nat, count: nat)
    requires Remnants(t, L, r, first, count)
    ensures first > r.self ==> MaximalRun(t, Run(r.self, first - r.self))
    ensures forall j :: 0 <= j < |L| ==> L[j].self < r.self || r.self + r.size < L[j].self
  {
  }

  lemma CarvedCovers(t: seq<Pte>, t': seq<Pte>, L: seq<Run>, M: seq<Run>, r: Run, first: nat, count: nat)
    requires Remnants(t, L, r, first, count) && first + count == r.self + r.size && SameUse(t, t')
    requires if first > r.self
             then AddedTo(L, M, Run(r.self, first - r.self))
             else M == L
    ensures Covers(t', M, 0, 0)
  {
    if first > r.self {
      InsertedCovers(t, t', L, M, Run(r.self, first - r.self), 0, 0);
    } else {
      forall i | 0 <= i < |t'| && Unused(t'[i]) ensures InSome(M, i) {
        SameUseUnused(t, t', i);
      }
    }
  }

  lemma ReservedThen(t: seq<Pte>, t1: seq<Pte>, t2: seq<Pte>, first: nat, count: nat)
    requires Reserved(t, t1, first, count) && SameUse(t1, t2)
    ensures Reserved(t, t2, first, count)
  {
    forall j | 0 <= j < |t| ensures Bare(t2[j]) == Bare(t1[j]) {
    }
  }

  lemma SameUseReflexive(t: seq<Pte>)
    ensures SameUse(t, t)
  {
  }

  lemma ErasedSoFar(t: seq<Pte>, t1: seq<Pte>, L: seq<Run>, k: nat)
    requires Chain(t, L) && k + 1 < |L|
    requires if k > 0 then NextReplaced(t, t1, L, k - 1, NextOf(L, k)) else t1 == t
    ensures Written(t1, L[k + 1], PrevOf(L, k + 1), NextOf(L, k + 1))
    ensures MaximalRun(t1, L[k + 1])
  {
    assert WrittenAt(t, L, k + 1);
    if k > 0 {
      ListDisjoint(t, L, k + 1, k - 1);
      KeepWritten(t, t1, L[k - 1], L[k + 1], PrevOf(L, k + 1), NextOf(L, k + 1));
      SameUseMaximal(t, t1, L[k + 1]);
    }
  }
}
