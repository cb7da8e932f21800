/** Cluster chains of an exFAT volume (kernel/filesystem/exfat.cpp): the cached
    walk along the FAT, the bitmap allocator and the growth of a chain.

    Cluster c owns FAT entry c and bitmap bit c - 2. */
module ClusterChains {

  const EOC: nat := 0xFFFFFFF8         // entries from here on end a chain
  const TAIL_MARK: nat := 0xFFFFFFFF
  const BITS_PER_SECTOR := 4096

  datatype Line = Line(index: nat, cluster: nat)

  // ---------------------------------------------------------------------
  // The plain walk along the FAT
  // ---------------------------------------------------------------------

  /** Entry c; 0 beyond the table. */
  function Entry(fat: seq<nat>, c: nat): nat {
    if c < |fat| then fat[c] else 0
  }

  /** The cluster after c, or 0 at the end. */
  function Next(fat: seq<nat>, c: nat): nat {
    var n := Entry(fat, c);
    if n >= EOC then 0 else n
  }

  /** The cluster i links after c, or 0 past the end. */
  function Walk(fat: seq<nat>, c: nat, i: nat): nat
    decreases i
  {
    if c == 0 || i == 0 then c else Walk(fat, Next(fat, c), i - 1)
  }

  lemma {:induction false} WalkOn(fat: seq<nat>, c: nat, i: nat)
    ensures Walk(fat, c, i + 1) == if Walk(fat, c, i) == 0 then 0 else Next(fat, Walk(fat, c, i))
    decreases i
  {
    if c != 0 && i > 0 {
      WalkOn(fat, Next(fat, c), i - 1);
    }
  }

  lemma {:induction false} WalkPastEnd(fat: seq<nat>, c: nat, i: nat, j: nat)
    requires i <= j && Walk(fat, c, i) == 0
    ensures Walk(fat, c, j) == 0
    decreases j
  {
    if i < j {
      WalkPastEnd(fat, c, i, j - 1);
      WalkOn(fat, c, j - 1);
    }
  }

  // ---------------------------------------------------------------------
  // The cache
  // ---------------------------------------------------------------------

  ghost predicate Descending(s: seq<Line>) {
    forall i, j :: 0 <= i < j < |s| ==> s[i].index > s[j].index
  }

  /** A line tells the truth about the walk. */
  ghost predicate TrueLine(l: Line, fat: seq<nat>, first: nat) {
    l.index >= 1 && l.cluster != 0 && l.cluster == Walk(fat, first, l.index)
  }

  ghost predicate CacheOk(cache: seq<Line>, lru: seq<Line>, fat: seq<nat>, first: nat) {
    && Descending(cache)
    && (forall i :: 0 <= i < |cache| ==> TrueLine(cache[i], fat, first))
    && multiset(lru) == multiset(cache)
  }

  function Remove(s: seq<Line>, x: Line): seq<Line> {
    if s == [] then [] else if s[0] == x then s[1..] else [s[0]] + Remove(s[1..], x)
  }

  lemma {:induction false} RemoveMembers(s: seq<Line>, x: Line)
    requires x in s
    ensures multiset(Remove(s, x)) == multiset(s) - multiset{x}
    ensures forall l :: l in Remove(s, x) ==> l in s
  {
    assert s == [s[0]] + s[1..];
    if s[0] != x {
      RemoveMembers(s[1..], x);
    }
  }

  lemma {:induction false} RemoveIs(s: seq<Line>, x: Line)
    requires x in s && Descending(s)
    ensures multiset(Remove(s, x)) == multiset(s) - multiset{x}
    ensures forall l :: l in Remove(s, x) ==> l in s
    ensures Descending(Remove(s, x))
  {
    RemoveMembers(s, x);
    hide Descending;
    DescendingRest(s);
    if s[0] != x {
      RemoveIs(s[1..], x);
      DescendingFirst(s[0], Remove(s[1..], x));
    }
  }

  lemma DescendingRest(s: seq<Line>)
    requires s != [] && Descending(s)
    ensures Descending(s[1..]) && forall l :: l in s[1..] ==> s[0].index > l.index
  {
  }

  lemma DescendingFirst(x: Line, r: seq<Line>)
    requires Descending(r) && forall l :: l in r ==> x.index > l.index
    ensures Descending([x] + r)
  {
    assert forall i :: 0 <= i < |r| ==> r[i] in r;
  }

  /** Where the search for a line below index stops. */
  ghost predicate Slot(s: seq<Line>, k: nat, index: nat) {
    && k <= |s| && (forall i :: 0 <= i < k ==> s[i].index > index)
    && (k < |s| ==> s[k].index < index)
  }

  lemma InsertKeeps(cache: seq<Line>, lru: seq<Line>, fat: seq<nat>, first: nat, k: nat, x: Line)
    requires CacheOk(cache, lru, fat, first) && k <= |cache| && Slot(cache, k, x.index) && TrueLine(x, fat, first)
    ensures CacheOk(cache[..k] + [x] + cache[k..], [x] + lru, fat, first)
  {
    hide Slot, TrueLine;
    InsertDescends(cache, k, x);
    var c := cache[..k] + [x] + cache[k..];
    assert cache == cache[..k] + cache[k..];
    forall i | 0 <= i < |c| ensures TrueLine(c[i], fat, first) {
      assert c[i] == if i < k then cache[i] else if i == k then x else cache[i - 1];
    }
  }

  lemma InsertDescends(s: seq<Line>, k: nat, x: Line)
    requires Descending(s) && Slot(s, k, x.index)
    ensures Descending(s[..k] + [x] + s[k..])
  {
    var c := s[..k] + [x] + s[k..];
    forall i, j | 0 <= i < j < |c| ensures c[i].index > c[j].index {
      assert c[i] == if i < k then s[i] else if i == k then x else s[i - 1];
      assert c[j] == if j < k then s[j] else if j == k then x else s[j - 1];
    }
  }

  lemma EvictKeeps(cache: seq<Line>, lru: seq<Line>, fat: seq<nat>, first: nat)
    requires CacheOk(cache, lru, fat, first) && lru != []
    ensures CacheOk(Remove(cache, lru[|lru| - 1]), lru[..|lru| - 1], fat, first)
  {
    var x := lru[|lru| - 1];
    assert lru == lru[..|lru| - 1] + [x];
    assert x in multiset(cache);
    RemoveIs(cache, x);
    forall i | 0 <= i < |Remove(cache, x)| ensures TrueLine(Remove(cache, x)[i], fat, first) {
      assert Remove(cache, x)[i] in cache;
    }
  }

  lemma ToFrontKeeps(cache: seq<Line>, lru: seq<Line>, fat: seq<nat>, first: nat, k: nat)
    requires CacheOk(cache, lru, fat, first) && k < |lru|
    ensures CacheOk(cache, [lru[k]] + lru[..k] + lru[k + 1..], fat, first)
    ensures TrueLine(lru[k], fat, first)
  {
    assert lru == lru[..k] + [lru[k]] + lru[k + 1..];
    assert lru[k] in multiset(cache);
  }

  lemma MissIsNew(cache: seq<Line>, lru: seq<Line>, fat: seq<nat>, first: nat, index: nat)
    requires CacheOk(cache, lru, fat, first) && forall i :: 0 <= i < |lru| ==> lru[i].index != index
    ensures forall i :: 0 <= i < |cache| ==> cache[i].index != index
  {
    forall i | 0 <= i < |cache| ensures cache[i].index != index {
      assert cache[i] in multiset(lru);
      assert cache[i] in lru;
    }
  }

  /** The lines in the order of their last use, after a use of x. */
  function Touched(lru: seq<Line>, x: Line, limit: nat): seq<Line> {
    var r := [x] + Remove(lru, x);
    if |r| <= limit then r else r[..limit]
  }

  lemma {:induction false} RemoveFirst(s: seq<Line>, k: nat)
    requires k < |s| && forall i :: 0 <= i < k ==> s[i] != s[k]
    ensures Remove(s, s[k]) == s[..k] + s[k + 1..]
  {
    if k > 0 {
      var r := s[1..];
      assert r[k - 1] == s[k] && forall i :: 0 <= i < k - 1 ==> r[i] == s[i + 1];
      RemoveFirst(r, k - 1);
      assert s[..k] == [s[0]] + r[..k - 1] && s[k + 1..] == r[k..];
    }
  }

  lemma {:induction false} RemoveNone(s: seq<Line>, x: Line)
    requires x !in s
    ensures Remove(s, x) == s
  {
    if s != [] {
      RemoveNone(s[1..], x);
    }
  }

  // ---------------------------------------------------------------------
  // Chains on a volume
  // ---------------------------------------------------------------------

  /** s is a chain of the FAT from its first cluster to an end mark. */
  ghost predicate ChainIn(fat: seq<nat>, s: seq<nat>) {
    && (forall i :: 0 <= i < |s| ==> 2 <= s[i] < |fat|)
    && (forall i :: 0 <= i < |s| - 1 ==> fat[s[i]] == s[i + 1])
    && (s != [] ==> fat[s[|s| - 1]] >= EOC)
    && (forall i :: 0 <= i < |s| ==> s[i] < EOC)
  }

  /** No cluster stands twice, in one chain or in two. */
  ghost predicate Exclusive(chains: seq<seq<nat>>) {
    forall k, i, l, j :: 0 <= k < |chains| && 0 <= l < |chains| && 0 <= i < |chains[k]| && 0 <= j < |chains[l]| ==>
      chains[k][i] == chains[l][j] ==> k == l && i == j
  }

  /** Every cluster of a chain is marked in the bitmap. */
  ghost predicate Marked(bits: seq<bool>, s: seq<nat>) {
    forall i :: 0 <= i < |s| ==> 2 <= s[i] < |bits| + 2 && bits[s[i] - 2]
  }

  ghost predicate VolumeOk(fat: seq<nat>, bits: seq<bool>, chains: seq<seq<nat>>) {
    && |bits| + 2 <= |fat| && |bits| + 2 < EOC
    && (forall k :: 0 <= k < |chains| ==> ChainIn(fat, chains[k]) && Marked(bits, chains[k]))
    && Exclusive(chains)
  }

  /** On a chain the plain walk gives its clusters in order, and 0 past its end. */
  lemma {:induction false} WalkOnChain(fat: seq<nat>, s: seq<nat>, i: nat)
    requires ChainIn(fat, s) && s != []
    ensures Walk(fat, s[0], i) == if i < |s| then s[i] else 0
    decreases i
  {
    if i > 0 {
      WalkOnChain(fat, s, i - 1);
      WalkOn(fat, s[0], i - 1);
    }
  }

  /** A line that is true of a chain stays true when the chain grows, whatever
      happens to the rest of the table. */
  lemma TrueLineStays(fat: seq<nat>, s: seq<nat>, f: seq<nat>, t: seq<nat>, l: Line)
    requires ChainIn(fat, s) && ChainIn(f, t) && s != [] && s <= t && TrueLine(l, fat, s[0])
    ensures TrueLine(l, f, t[0])
  {
    WalkOnChain(fat, s, l.index);
    WalkOnChain(f, t, l.index);
  }

  lemma CacheStays(cache: seq<Line>, lru: seq<Line>, fat: seq<nat>, s: seq<nat>, f: seq<nat>, t: seq<nat>)
    requires ChainIn(fat, s) && ChainIn(f, t) && s != [] && s <= t && CacheOk(cache, lru, fat, s[0])
    ensures CacheOk(cache, lru, f, t[0])
  {
    forall i | 0 <= i < |cache| ensures TrueLine(cache[i], f, t[0]) {
      TrueLineStays(fat, s, f, t, cache[i]);
    }
  }

  lemma NoLinesOnEmpty(cache: seq<Line>, lru: seq<Line>, fat: seq<nat>)
    requires CacheOk(cache, lru, fat, 0)
    ensures cache == [] && lru == []
  {
    assert forall l :: !TrueLine(l, fat, 0);
    assert |multiset(lru)| == |lru| && |multiset(cache)| == |cache|;
  }

  /** The table with c made an end and linked after the last cluster of s. */
  function Linked(fat: seq<nat>, s: seq<nat>, c: nat): seq<nat>
    requires c < |fat| && (s != [] ==> s[|s| - 1] < |fat|)
  {
    var f := fat[c := TAIL_MARK];
    if s == [] then f else f[s[|s| - 1] := c]
  }

  lemma UnmarkedIsFree(fat: seq<nat>, bits: seq<bool>, chains: seq<seq<nat>>, c: nat)
    requires VolumeOk(fat, bits, chains) && 2 <= c < |bits| + 2 && !bits[c - 2]
    ensures forall k :: 0 <= k < |chains| ==> c !in chains[k]
  {
  }

  lemma ChainUntouched(fat: seq<nat>, f: seq<nat>, s: seq<nat>)
    requires ChainIn(fat, s) && |f| == |fat| && forall i :: 0 <= i < |s| ==> f[s[i]] == fat[s[i]]
    ensures ChainIn(f, s)
  {
  }

  lemma MarkedMore(bits: seq<bool>, s: seq<nat>, p: nat)
    requires Marked(bits, s) && p < |bits|
    ensures Marked(bits[p := true], s)
  {
  }

  lemma LastIsAlone(chains: seq<seq<nat>>, id: nat, k: nat, i: nat)
    requires Exclusive(chains) && id < |chains| && k < |chains| && k != id && chains[id] != [] && i < |chains[k]|
    ensures chains[k][i] != chains[id][|chains[id]| - 1]
  {
  }

  lemma ExclusiveAppend(chains: seq<seq<nat>>, id: nat, c: nat)
    requires Exclusive(chains) && id < |chains| && forall k :: 0 <= k < |chains| ==> c !in chains[k]
    ensures Exclusive(chains[id := chains[id] + [c]])
  {
    var q := chains[id := chains[id] + [c]];
    forall k, i | 0 <= k < |q| && 0 <= i < |q[k]|
      ensures q[k][i] == c <==> k == id && i == |chains[id]|
      ensures k != id || i < |chains[id]| ==> i < |chains[k]| && q[k][i] == chains[k][i]
    {
      if k != id || i < |chains[id]| {
        assert q[k][i] == chains[k][i];
        assert chains[k][i] in chains[k];
      }
    }
  }

  lemma GrowChain(fat: seq<nat>, s: seq<nat>, c: nat)
    requires ChainIn(fat, s) && c !in s && 2 <= c < |fat| && c < EOC
    requires forall i, j :: 0 <= i < j < |s| ==> s[i] != s[j]
    ensures ChainIn(Linked(fat, s, c), s + [c])
  {
    var t, f := s + [c], Linked(fat, s, c);
    forall i | 0 <= i < |t| - 1 ensures f[t[i]] == t[i + 1] {
      assert t[i] == s[i] && s[i] in s;
    }
  }

  /** Linking an unmarked cluster to the end of chain id, and marking it. */
  lemma AppendKeeps(fat: seq<nat>, bits: seq<bool>, chains: seq<seq<nat>>, id: nat, c: nat)
    requires VolumeOk(fat, bits, chains) && id < |chains| && 2 <= c < |bits| + 2 && !bits[c - 2]
    ensures c < |fat| && (chains[id] != [] ==> chains[id][|chains[id]| - 1] < |fat|)
    ensures VolumeOk(Linked(fat, chains[id], c), bits[c - 2 := true], chains[id := chains[id] + [c]])
  {
    var s := chains[id];
    UnmarkedIsFree(fat, bits, chains, c);
    var f, b, q := Linked(fat, s, c), bits[c - 2 := true], chains[id := s + [c]];
    ExclusiveAppend(chains, id, c);
    assert forall i, j :: 0 <= i < j < |s| ==> chains[id][i] != chains[id][j];
    GrowChain(fat, s, c);
    hide Exclusive, ChainIn, Marked;
    MarkedMore(bits, s, c - 2);
    MarkedLast(bits[c - 2 := true], s, c);
    forall k | 0 <= k < |q| && k != id ensures ChainIn(f, q[k]) && Marked(b, q[k]) {
      MarkedMore(bits, chains[k], c - 2);
      OtherChain(fat, chains, id, k, c);
    }
    LinkedOk(fat, s, c);
  }

  lemma LinkedOk(fat: seq<nat>, s: seq<nat>, c: nat)
    requires c < |fat| && (s != [] ==> s[|s| - 1] < |fat|)
    ensures |Linked(fat, s, c)| == |fat|
  {
  }

  lemma MarkedLast(bits: seq<bool>, s: seq<nat>, c: nat)
    requires Marked(bits, s) && 2 <= c < |bits| + 2 && bits[c - 2]
    ensures Marked(bits, s + [c])
  {
  }

  lemma OtherChain(fat: seq<nat>, chains: seq<seq<nat>>, id: nat, k: nat, c: nat)
    requires Exclusive(chains) && id < |chains| && k < |chains| && k != id && ChainIn(fat, chains[k]) && c !in chains[k]
    requires c < |fat| && (chains[id] != [] ==> chains[id][|chains[id]| - 1] < |fat|)
    ensures ChainIn(Linked(fat, chains[id], c), chains[k])
  {
    var f := Linked(fat, chains[id], c);
    forall i | 0 <= i < |chains[k]| ensures f[chains[k][i]] == fat[chains[k][i]] {
      assert chains[k][i] in chains[k];
      if chains[id] != [] {
        LastIsAlone(chains, id, k, i);
      }
    }
    ChainUntouched(fat, f, chains[k]);
  }

  /** Marking a cluster and making it an end without linking it: it belongs to no chain. */
  lemma LeakKeeps(fat: seq<nat>, bits: seq<bool>, chains: seq<seq<nat>>, c: nat)
    requires VolumeOk(fat, bits, chains) && 2 <= c < |bits| + 2 && !bits[c - 2]
    ensures c < |fat| && VolumeOk(fat[c := TAIL_MARK], bits[c - 2 := true], chains)
  {
    UnmarkedIsFree(fat, bits, chains, c);
    var f, b := fat[c := TAIL_MARK], bits[c - 2 := true];
    forall k | 0 <= k < |chains| ensures ChainIn(f, chains[k]) && Marked(b, chains[k]) {
      MarkedMore(bits, chains[k], c - 2);
      assert forall i :: 0 <= i < |chains[k]| ==> chains[k][i] in chains[k];
      ChainUntouched(fat, f, chains[k]);
    }
  }

  // ---------------------------------------------------------------------
  // The volume: FAT and bitmap
  // ---------------------------------------------------------------------

  function SectorStart(pos: nat): nat {
    pos - pos % BITS_PER_SECTOR
  }

  /** All bits below the hint are set. Holds at mount, and as long as nothing is freed. */
  ghost predicate Packed(bits: seq<bool>, last: nat) {
    forall p :: 0 <= p < last && p < |bits| ==> bits[p]
  }

  /** The positions the allocator looks at, starting from its hint: all but those
      between the start of the hint's sector and the hint. */
  predicate Scanned(last: nat, p: nat) {
    p >= last || p < SectorStart(last)
  }

  ghost predicate NoneFound(bits: seq<bool>, last: nat) {
    forall p: nat :: p < |bits| && Scanned(last, p) ==> bits[p]
  }

  ghost predicate AllSet(bits: seq<bool>, from: nat, to: nat) {
    forall p: nat :: from <= p < to && p < |bits| ==> bits[p]
  }

  class Volume {
    const fat: array<nat>
    const bits: array<bool>
    var lastIndex: nat
    ghost var chains: seq<seq<nat>>

    ghost predicate Valid()
      reads this, fat, bits
    {
      && VolumeOk(fat[..], bits[..], chains)
      && (lastIndex == 0 || lastIndex < bits.Length)
    }

    /** A volume as it is found on the disk. */
    constructor (fat: array<nat>, bits: array<bool>, ghost chains: seq<seq<nat>>)
      requires VolumeOk(fat[..], bits[..], chains)
      ensures Valid() && this.fat == fat && this.bits == bits && this.chains == chains && lastIndex == 0
    {
      this.fat, this.bits, this.chains, lastIndex := fat, bits, chains, 0;
    }

    /** The FAT reader's get. */
    function FatGet(cluster: nat): (r: nat)
      reads fat
      ensures r == Entry(fat[..], cluster)
    {
      if cluster < fat.Length then fat[cluster] else 0
    }

    /** The FAT reader's put: makes next an end and links it after tail, which
        must be an end; 0 stands for an empty chain. */
    method FatPut(tail: nat, next: nat) returns (ok: bool)
      modifies fat
      ensures ok <==> next < fat.Length && (tail == 0 || tail == next || (tail < fat.Length && old(fat[tail]) >= EOC))
      ensures fat[..] ==
        if next >= fat.Length then old(fat[..])
        else if ok && tail != 0 then old(fat[..])[next := TAIL_MARK][tail := next] else old(fat[..])[next := TAIL_MARK]
    {
      if next >= fat.Length {
        return false;
      }
      fat[next] := TAIL_MARK;
      if tail == 0 {
        return true;
      }
      if tail >= fat.Length {
        return false;
      }
      if fat[tail] < EOC {
        return false;
      }
      fat[tail] := next;
      return true;
    }

    /** The allocator's get: takes the first clear bit from the hint to the end, or
        else from the start to the sector of the hint. */
    method AllocGet() returns (cluster: nat)
      requires lastIndex == 0 || lastIndex < bits.Length
      modifies bits, this`lastIndex
      ensures cluster == 0 <==> NoneFound(old(bits[..]), old(lastIndex))
      ensures cluster == 0 ==> bits[..] == old(bits[..]) && lastIndex == old(lastIndex)
      ensures cluster != 0 ==> 2 <= cluster < bits.Length + 2 && lastIndex == cluster - 2
      ensures cluster != 0 ==> !old(bits[..])[cluster - 2] && bits[..] == old(bits[..])[cluster - 2 := true]
      ensures cluster != 0 && lastIndex >= old(lastIndex) ==> AllSet(old(bits[..]), old(lastIndex), lastIndex)
      ensures cluster != 0 && lastIndex < old(lastIndex) ==>
        lastIndex < SectorStart(old(lastIndex)) && AllSet(old(bits[..]), old(lastIndex), bits.Length)
      ensures cluster != 0 && lastIndex < old(lastIndex) ==> AllSet(old(bits[..]), 0, lastIndex)
      ensures Packed(old(bits[..]), old(lastIndex)) ==> Packed(bits[..], lastIndex)
      ensures Packed(old(bits[..]), old(lastIndex)) && cluster == 0 ==> forall p :: 0 <= p < bits.Length ==> bits[p]
    {
      var pos: nat := lastIndex;
      var initial := SectorStart(pos);
      ghost var start := lastIndex;
      ghost var wrapped := false;
      ghost var was := bits[..];
      while true
        invariant bits[..] == was && lastIndex == start && (pos == 0 || pos < bits.Length)
        invariant !wrapped ==> start <= pos && AllSet(was, start, pos)
        invariant wrapped ==> pos < initial && AllSet(was, start, bits.Length) && AllSet(was, 0, pos)
        invariant pos == start || pos % BITS_PER_SECTOR == 0
        decreases !wrapped, if wrapped then initial - pos else bits.Length - pos
      {
        ghost var first: nat := pos;
        while true
          invariant bits[..] == was && lastIndex == start && first <= pos && (pos == first || pos <= bits.Length)
          invariant pos / BITS_PER_SECTOR == first / BITS_PER_SECTOR
          invariant !wrapped ==> AllSet(was, start, pos)
          invariant wrapped ==> pos < initial && AllSet(was, 0, pos)
          decreases bits.Length - pos
        {
          if pos >= bits.Length {
            break;
          }
          if !bits[pos] {
            bits[pos] := true;
            lastIndex := pos;
            return pos + 2;
          }
          pos := pos + 1;
          if pos % BITS_PER_SECTOR == 0 {
            break;
          }
        }
        if pos >= bits.Length {
          pos := 0;
          wrapped := true;
        }
        if pos == initial {
          break;
        }
      }
      return 0;
    }

    /** The allocator's put: clears the bit of a cluster; false on a double release. */
    method AllocPut(cluster: nat) returns (ok: bool)
      requires 2 <= cluster < bits.Length + 2
      modifies bits
      ensures ok <==> old(bits[..])[cluster - 2]
      ensures bits[..] == old(bits[..])[cluster - 2 := false]
    {
      ok := bits[cluster - 2];
      bits[cluster - 2] := false;
    }
  }

  /** A freed bit between the start of the hint's sector and the hint is missed:
      with all other bits set the allocator finds none. */
  lemma FreedBitIsMissed(bits: seq<bool>, last: nat, p: nat)
    requires SectorStart(last) <= p < last < |bits|
    requires forall q :: 0 <= q < |bits| && q != p ==> bits[q]
    ensures NoneFound(bits, last) && NoneFound(bits[p := false], last)
  {
  }

  // ---------------------------------------------------------------------
  // A chain
  // ---------------------------------------------------------------------

  /** How the search for the end of a chain ends: the position is there, the
      chain ends before it, or an entry of 0 breaks the chain off. */
  datatype Search = Reached | End | Broken

  class ClusterChain {
    const vol: Volume
    const linear: bool
    const limit: nat
    ghost const id: nat       // the place of the chain in vol.chains
    var first: nat
    var cache: seq<Line>      // descending
    var lru: seq<Line>        // the same lines, latest use first

    /** The cache agrees with the plain walk. */
    ghost predicate Valid()
      reads this, vol, vol.fat
    {
      && limit > 0 && CacheOk(cache, lru, vol.fat[..], first) && |lru| <= limit
    }

    /** The chain is one of the chains of a sound volume. */
    ghost predicate Registered()
      reads this, vol, vol.fat, vol.bits
    {
      && Valid() && vol.Valid() && !linear && id < |vol.chains|
      && first == (if vol.chains[id] == [] then 0 else vol.chains[id][0])
    }

    constructor (vol: Volume, head: nat, linear: bool, limit: nat, ghost id: nat)
      requires limit > 0
      ensures Valid() && this.vol == vol && first == head && this.linear == linear && this.id == id
    {
      this.vol, this.first, this.linear, this.limit, this.id := vol, head, linear, limit, id;
      cache, lru := [], [];
    }

    /** The cluster at position index of the chain, or 0 past its end. */
    method Get(index: nat) returns (cluster: nat)
      requires Valid()
      modifies this`cache, this`lru
      ensures Valid()
      ensures cluster == if first == 0 then 0 else if linear then first + index else Walk(vol.fat[..], first, index)
      ensures lru == if linear || index == 0 || cluster == 0 then old(lru)
        else Touched(old(lru), Line(index, cluster), limit)
    {
      hide *;
      Facts();
      if first == 0 {
        return 0;
      }
      if linear {
        return first + index;
      }
      WalkNone(vol.fat[..], first);
      if index == 0 {
        return first;
      }
      ghost var fat := vol.fat[..];
      var n: nat := 0;
      while n < |lru|
        invariant lru == old(lru) && cache == old(cache)
        invariant n <= |lru| && forall i :: 0 <= i < n ==> lru[i].index != index
      {
        if lru[n].index == index {
          ToFrontKeeps(cache, lru, fat, first, n);
          LineIs(lru[n], fat, first);
          TouchHit(lru, n, limit);
          if n == 0 {
            return lru[0].cluster;
          }
          lru := [lru[n]] + lru[..n] + lru[n + 1..];
          BecomesValid();
          return lru[0].cluster;
        }
        n := n + 1;
      }
      MissIsNew(cache, lru, fat, first, index);
      var cur := Line(0, first);
      var k: nat := 0;
      while k < |cache|
        invariant lru == old(lru) && cache == old(cache)
        invariant k <= |cache| && cur == Line(0, first) && forall i :: 0 <= i < k ==> cache[i].index > index
      {
        if cache[k].index < index {
          CacheLine(cache, lru, fat, first, k);
          cur := cache[k];
          break;
        }
        k := k + 1;
      }
      SlotIs(cache, k, index);
      while cur.index < index
        invariant lru == old(lru) && cache == old(cache)
        invariant cur.index <= index && cur.cluster == Walk(fat, first, cur.index) && cur.cluster != 0
      {
        var next := vol.FatGet(cur.cluster);
        Follow(fat, first, cur.index, cur.cluster);
        if next == 0 || next >= EOC {
          WalkPastEnd(fat, first, cur.index + 1, index);
          return 0;
        }
        cur := Line(cur.index + 1, next);
      }
      TrueLineIs(cur, fat, first);
      AddLine(k, cur);
      return cur.cluster;
    }

    /** Puts a line in its place and drops the lines used longest ago. */
    method AddLine(k: nat, cur: Line)
      requires Valid() && k <= |cache| && Slot(cache, k, cur.index) && TrueLine(cur, vol.fat[..], first)
      requires forall i :: 0 <= i < |lru| ==> lru[i].index != cur.index
      modifies this`cache, this`lru
      ensures Valid() && lru == Touched(old(lru), cur, limit)
    {
      hide *;
      Facts();
      InsertKeeps(cache, lru, vol.fat[..], first, k, cur);
      TouchMiss(lru, cur, limit);
      cache := cache[..k] + [cur] + cache[k..];
      lru := [cur] + lru;
      ghost var grown := lru;
      while |lru| > limit
        invariant |lru| >= limit || lru == grown
        invariant CacheOk(cache, lru, vol.fat[..], first) && |lru| <= |grown| && lru == grown[..|lru|]
      {
        EvictKeeps(cache, lru, vol.fat[..], first);
        cache := Remove(cache, lru[|lru| - 1]);
        lru := lru[..|lru| - 1];
      }
      BecomesValid();
    }

    /** Makes the chain at least index + 1 clusters long. */
    method Expand(index: nat) returns (ok: bool)
      requires Valid() && (!linear ==> Registered()) && (index > 0 ==> first != 0)
      modifies this`first, vol.fat, vol.bits, vol`lastIndex, vol`chains
      ensures Valid() && (!linear ==> Registered())
      ensures linear ==> !ok && vol.fat[..] == old(vol.fat[..]) && vol.bits[..] == old(vol.bits[..])
      ensures !linear ==> Grown(old(vol.chains), vol.chains, id)
      ensures !linear ==> FreshlyTaken(old(vol.bits[..]), vol.chains[id], |old(vol.chains)[id]|)
      ensures !linear && !Stuck(old(vol.chains)[id], index) ==>
        JustTaken(old(vol.bits[..]), vol.bits[..], vol.chains[id], |old(vol.chains)[id]|)
      ensures ok ==> |vol.chains[id]| == NewLength(|old(vol.chains)[id]|, index)
      ensures !linear && 0 < index < |old(vol.chains)[id]| ==>
        ok && vol.fat[..] == old(vol.fat[..]) && vol.bits[..] == old(vol.bits[..])
      ensures !ok && !linear && !Stuck(old(vol.chains)[id], index) ==>
        NoneFound(vol.bits[..], vol.lastIndex) && |vol.chains[id]| < NewLength(|old(vol.chains)[id]|, index)
      ensures !ok && !linear && !Stuck(old(vol.chains)[id], index) && vol.chains == old(vol.chains) ==>
        NoneFound(old(vol.bits[..]), old(vol.lastIndex))
      ensures !linear && Stuck(old(vol.chains)[id], index) ==> !ok && vol.chains == old(vol.chains)
      ensures !linear && Stuck(old(vol.chains)[id], index) && !NoneFound(old(vol.bits[..]), old(vol.lastIndex)) ==>
        Leaked(old(vol.bits[..]), vol.bits[..], vol.chains, vol.lastIndex)
    {
      hide *;
      Facts();
      if linear {
        return false;
      }
      RegisteredFacts();
      ghost var s := vol.chains[id];
      ghost var chains0 := vol.chains;
      ghost var bits0 := vol.bits[..];
      GrownNone(vol.chains, id, bits0);
      StuckIs(s, index);
      var tail := Line(0, first);
      if index != 0 {
        var search: Search;
        tail, search := FindTail(index);
        if search == Broken {
          return false;
        }
        if search == Reached {
          return true;
        }
      }
      TailStart(s, tail, index, first);
      while true
        invariant Registered() && id < |vol.chains|
        invariant Grown(chains0, vol.chains, id) && FreshlyTaken(bits0, vol.chains[id], |s|)
          && JustTaken(bits0, vol.bits[..], vol.chains[id], |s|)
        invariant TailOk(vol.chains[id], tail, index, first)
        invariant |vol.chains[id]| == |s| ==>
          vol.chains == chains0 && vol.bits[..] == bits0 && vol.lastIndex == old(vol.lastIndex)
        invariant Stuck(s, index) ==> |vol.chains[id]| == |s|
        invariant Stuck(vol.chains[id], index) ==> Stuck(s, index)
        invariant Stuck(s, index) || |vol.chains[id]| < NewLength(|s|, index)
        decreases NewLength(|s|, index) - |vol.chains[id]|
      {
        ghost var t := vol.chains[id];
        ghost var chains1 := vol.chains;
        ghost var b := vol.bits[..];
        RegisteredFacts();
        TailFacts(vol.fat[..], t, tail, index, first);
        var empty := first == 0;
        var done: bool, next: nat;
        done, next := AddCluster(tail, index);
        if !done {
          RegisteredFacts();
          LongerIs(chains0, vol.chains, id);
          return false;
        }
        Appended(chains0, chains1, id, next, bits0, b, |s|);
        tail := Line(if empty then tail.index else tail.index + 1, next);
        TailNext(t, next, tail, index, first, |s|);
        StuckIs(t + [next], index);
        StuckIs(t, index);
        if tail.index >= index {
          break;
        }
      }
      RegisteredFacts();
      return true;
    }

    /** The walk from the last cached line to the end of the chain. */
    method FindTail(index: nat) returns (tail: Line, search: Search)
      requires Registered() && index > 0 && first != 0
      ensures search != Broken
      ensures search == Reached <==> index < |vol.chains[id]|
      ensures search == End ==>
        |vol.chains[id]| > 0 && tail == Line(|vol.chains[id]| - 1, vol.chains[id][|vol.chains[id]| - 1])
    {
      hide *;
      RegisteredFacts();
      Facts();
      ghost var s := vol.chains[id];
      tail := Line(0, first);
      if cache != [] {
        CacheOnChain(cache, lru, vol.fat[..], s, 0);
        tail := cache[0];
      }
      if tail.index >= index {
        return tail, Reached;
      }
      while true
        invariant tail.index < |s| && tail.cluster == s[tail.index] && tail.index < index
        decreases |s| - tail.index
      {
        ChainStep(vol.fat[..], s, tail.index);
        var next := vol.FatGet(tail.cluster);
        if next == 0 {
          return tail, Broken;
        }
        if next >= EOC {
          return tail, End;
        }
        tail := Line(tail.index + 1, next);
        if tail.index >= index {
          return tail, Reached;
        }
      }
    }

    /** One round: takes a cluster and links it after the tail. */
    method AddCluster(tail: Line, ghost index: nat) returns (done: bool, next: nat)
      requires Registered() && TailOk(vol.chains[id], tail, index, first)
      modifies this`first, vol.fat, vol.bits, vol`lastIndex, vol`chains
      ensures Registered() && |vol.bits[..]| == |old(vol.bits[..])|
      ensures done ==>
        2 <= next < |old(vol.bits[..])| + 2 && !old(vol.bits[..])[next - 2] && !Stuck(old(vol.chains)[id], index)
      ensures done ==> vol.bits[..] == old(vol.bits[..])[next - 2 := true]
      ensures done ==> vol.chains == old(vol.chains)[id := old(vol.chains)[id] + [next]]
      ensures !done ==> vol.chains == old(vol.chains)
      ensures !done && !Stuck(old(vol.chains)[id], index) ==>
        vol.bits[..] == old(vol.bits[..]) && vol.lastIndex == old(vol.lastIndex)
      ensures !done && !Stuck(old(vol.chains)[id], index) ==> NoneFound(vol.bits[..], vol.lastIndex)
      ensures Stuck(old(vol.chains)[id], index) && !NoneFound(old(vol.bits[..]), old(vol.lastIndex)) ==>
        Leaked(old(vol.bits[..]), vol.bits[..], vol.chains, vol.lastIndex)
    {
      hide *;
      RegisteredFacts();
      Facts();
      ghost var t := vol.chains[id];
      ghost var f := vol.fat[..];
      ghost var b := vol.bits[..];
      next := vol.AllocGet();
      assert vol.fat[..] == f;
      if next == 0 {
        BecomesRegistered();
        return false, next;
      }
      RoundKeeps(f, b, vol.chains, id, cache, lru, tail, next, index, first);
      done := vol.FatPut(tail.cluster, next);
      if !done {
        BecomesRegistered();
        return;
      }
      if first == 0 {
        first := next;
      }
      vol.chains := vol.chains[id := t + [next]];
      BecomesRegistered();
    }

    lemma BecomesRegistered()
      requires limit > 0 && !linear && id < |vol.chains|
        && first == (if vol.chains[id] == [] then 0 else vol.chains[id][0])
      requires VolumeOk(vol.fat[..], vol.bits[..], vol.chains)
        && (vol.lastIndex == 0 || vol.lastIndex < vol.bits.Length)
      requires CacheOk(cache, lru, vol.fat[..], first) && |lru| <= limit
      ensures Registered()
    {
      assert vol.chains[id] != [] ==> ChainIn(vol.fat[..], vol.chains[id]);
    }

    lemma RegisteredFacts()
      requires Registered()
      ensures Valid() && vol.Valid() && !linear && id < |vol.chains| && VolumeOk(vol.fat[..], vol.bits[..], vol.chains)
      ensures vol.lastIndex == 0 || vol.lastIndex < vol.bits.Length
      ensures ChainIn(vol.fat[..], vol.chains[id]) && vol.bits.Length + 2 <= vol.fat.Length
      ensures first == (if vol.chains[id] == [] then 0 else vol.chains[id][0])
    {
    }

    lemma Facts()
      requires Valid()
      ensures limit > 0 && CacheOk(cache, lru, vol.fat[..], first) && |lru| <= limit
    {
    }

    lemma BecomesValid()
      requires limit > 0 && CacheOk(cache, lru, vol.fat[..], first) && |lru| <= limit
      ensures Valid()
    {
    }
  }

  /** The other chains are as before, and chain id starts with what it was. */
  ghost predicate Grown(before: seq<seq<nat>>, after: seq<seq<nat>>, id: nat) {
    && |after| == |before| && id < |before| && before[id] <= after[id]
    && forall k :: 0 <= k < |before| && k != id ==> after[k] == before[k]
  }

  /** The clusters from position n on were unmarked before. */
  ghost predicate FreshlyTaken(bits: seq<bool>, s: seq<nat>, n: nat) {
    forall i :: n <= i < |s| ==> 2 <= s[i] < |bits| + 2 && !bits[s[i] - 2]
  }

  /** Just the clusters from position n on were marked. */
  ghost predicate JustTaken(before: seq<bool>, after: seq<bool>, s: seq<nat>, n: nat) {
    && |after| == |before| && n <= |s|
    && forall p: nat :: p < |before| ==> (after[p] <==> before[p] || p + 2 in s[n..])
  }

  /** How long a chain of n clusters gets. A single cluster asked to reach
      position 0, where it already is, still gets a second one. */
  function NewLength(n: nat, index: nat): nat {
    if index == 0 && n == 1 then 2 else if n <= index then index + 1 else n
  }

  /** Asked to reach position 0 of a longer chain, the code takes a cluster, finds
      that the first one is not the last, and gives up. */
  ghost predicate Stuck(s: seq<nat>, index: nat) {
    index == 0 && |s| > 1
  }

  /** One more cluster is marked, and it is in no chain. */
  ghost predicate Leaked(before: seq<bool>, after: seq<bool>, chains: seq<seq<nat>>, p: nat) {
    && p < |before| && !before[p] && after == before[p := true]
    && forall k :: 0 <= k < |chains| ==> p + 2 !in chains[k]
  }

  ghost predicate TailOk(s: seq<nat>, tail: Line, index: nat, first: nat) {
    if s == [] then tail == Line(0, 0) && index == 0 && first == 0
    else if Stuck(s, index) then tail == Line(0, s[0])
    else tail == Line(|s| - 1, s[|s| - 1])
  }

  lemma LongerIs(before: seq<seq<nat>>, after: seq<seq<nat>>, id: nat)
    requires Grown(before, after, id)
    ensures after == before ==> |after[id]| == |before[id]|
  {
  }

  lemma GrownNone(chains: seq<seq<nat>>, id: nat, bits: seq<bool>)
    requires id < |chains|
    ensures Grown(chains, chains, id) && FreshlyTaken(bits, chains[id], |chains[id]|)
      && JustTaken(bits, bits, chains[id], |chains[id]|)
  {
  }

  lemma StuckIs(s: seq<nat>, index: nat)
    ensures Stuck(s, index) <==> index == 0 && |s| > 1
    ensures NewLength(|s|, index) == if index == 0 && |s| == 1 then 2 else if |s| <= index then index + 1 else |s|
  {
  }

  lemma CacheOnChain(cache: seq<Line>, lru: seq<Line>, fat: seq<nat>, s: seq<nat>, k: nat)
    requires ChainIn(fat, s) && CacheOk(cache, lru, fat, if s == [] then 0 else s[0]) && k < |cache|
    ensures 1 <= cache[k].index < |s| && cache[k].cluster == s[cache[k].index]
  {
    assert TrueLine(cache[k], fat, if s == [] then 0 else s[0]);
    if s == [] {
      NoLinesOnEmpty(cache, lru, fat);
    } else {
      WalkOnChain(fat, s, cache[k].index);
    }
  }

  lemma ChainStep(fat: seq<nat>, s: seq<nat>, i: nat)
    requires ChainIn(fat, s) && i < |s|
    ensures 2 <= s[i] < |fat| && Entry(fat, s[i]) != 0
    ensures Entry(fat, s[i]) >= EOC <==> i == |s| - 1
    ensures i < |s| - 1 ==> Entry(fat, s[i]) == s[i + 1]
  {
    assert i < |s| - 1 ==> fat[s[i]] == s[i + 1] && 2 <= s[i + 1] < EOC;
  }

  lemma TailStart(s: seq<nat>, tail: Line, index: nat, first: nat)
    requires first == (if s == [] then 0 else s[0]) && (index > 0 ==> first != 0)
    requires index == 0 ==> tail == Line(0, first)
    requires index > 0 ==> s != [] && tail == Line(|s| - 1, s[|s| - 1]) && |s| - 1 < index
    ensures TailOk(s, tail, index, first)
    ensures Stuck(s, index) || |s| < NewLength(|s|, index)
  {
  }

  lemma TailFacts(f: seq<nat>, t: seq<nat>, tail: Line, index: nat, first: nat)
    requires ChainIn(f, t) && TailOk(t, tail, index, first) && first == (if t == [] then 0 else t[0])
    ensures t == [] <==> first == 0
    ensures t == [] ==> tail == Line(0, 0) && index == 0
    ensures t != [] ==> tail.cluster in t && 2 <= tail.cluster < |f|
    ensures t != [] && !Stuck(t, index) ==> tail == Line(|t| - 1, t[|t| - 1]) && f[tail.cluster] >= EOC
    ensures Stuck(t, index) ==> tail == Line(0, t[0]) && f[tail.cluster] < EOC && t != []
  {
    if Stuck(t, index) {
      ChainStep(f, t, 0);
    }
  }

  lemma TailNotNext(f: seq<nat>, b: seq<bool>, chains: seq<seq<nat>>, id: nat, tail: Line, next: nat)
    requires VolumeOk(f, b, chains) && id < |chains| && 2 <= next < |b| + 2 && !b[next - 2]
    requires tail.cluster == 0 || tail.cluster in chains[id]
    ensures tail.cluster != next && next < |f|
    ensures forall t: seq<nat> :: (t != [] ==> t[|t| - 1] < |f|) ==>
      Linked(f, t, next) == if t == [] then f[next := TAIL_MARK] else f[next := TAIL_MARK][t[|t| - 1] := next]
  {
    UnmarkedIsFree(f, b, chains, next);
  }

  lemma LeakIs(f: seq<nat>, b: seq<bool>, chains: seq<seq<nat>>, next: nat)
    requires VolumeOk(f, b, chains) && 2 <= next < |b| + 2 && !b[next - 2]
    ensures Leaked(b, b[next - 2 := true], chains, next - 2)
  {
    UnmarkedIsFree(f, b, chains, next);
  }

  lemma Appended(before: seq<seq<nat>>, chains: seq<seq<nat>>, id: nat, next: nat, bits: seq<bool>, b: seq<bool>,
      n: nat)
    requires Grown(before, chains, id) && FreshlyTaken(bits, chains[id], n) && JustTaken(bits, b, chains[id], n)
    requires 2 <= next < |b| + 2 && !b[next - 2]
    ensures Grown(before, chains[id := chains[id] + [next]], id)
    ensures FreshlyTaken(bits, chains[id] + [next], n) && JustTaken(bits, b[next - 2 := true], chains[id] + [next], n)
  {
    assert (chains[id] + [next])[n..] == chains[id][n..] + [next];
  }

  lemma ChainOf(fat: seq<nat>, bits: seq<bool>, chains: seq<seq<nat>>, id: nat)
    requires VolumeOk(fat, bits, chains) && id < |chains|
    ensures ChainIn(fat, chains[id])
  {
  }

  lemma CacheGrows(cache: seq<Line>, lru: seq<Line>, fat: seq<nat>, s: seq<nat>, f: seq<nat>, c: nat)
    requires ChainIn(fat, s) && ChainIn(f, s + [c]) && CacheOk(cache, lru, fat, if s == [] then 0 else s[0])
    ensures CacheOk(cache, lru, f, (s + [c])[0])
  {
    if s == [] {
      NoLinesOnEmpty(cache, lru, fat);
    } else {
      CacheStays(cache, lru, fat, s, f, s + [c]);
    }
  }

  /** What one round does to the table: next becomes an end, and is linked after
      the tail unless the tail is no end. */
  lemma RoundKeeps(f: seq<nat>, b: seq<bool>, chains: seq<seq<nat>>, id: nat, cache: seq<Line>, lru: seq<Line>,
      tail: Line, next: nat, index: nat, first: nat)
    requires VolumeOk(f, b, chains) && id < |chains| && TailOk(chains[id], tail, index, first)
    requires first == (if chains[id] == [] then 0 else chains[id][0]) && CacheOk(cache, lru, f, first)
    requires 2 <= next < |b| + 2 && !b[next - 2]
    ensures next < |f| && tail.cluster != next && tail.cluster < |f|
    ensures Stuck(chains[id], index) <==> tail.cluster != 0 && f[tail.cluster] < EOC
    ensures Stuck(chains[id], index) ==> VolumeOk(f[next := TAIL_MARK], b[next - 2 := true], chains)
    ensures Stuck(chains[id], index) ==> CacheOk(cache, lru, f[next := TAIL_MARK], first)
    ensures Stuck(chains[id], index) ==> Leaked(b, b[next - 2 := true], chains, next - 2)
    ensures !Stuck(chains[id], index) ==>
      var g := if tail.cluster == 0 then f[next := TAIL_MARK] else f[next := TAIL_MARK][tail.cluster := next];
      var to := if first == 0 then next else first;
      && VolumeOk(g, b[next - 2 := true], chains[id := chains[id] + [next]])
      && to == (chains[id] + [next])[0] && CacheOk(cache, lru, g, to)
  {
    hide *;
    var t := chains[id];
    var c := b[next - 2 := true];
    ChainOf(f, b, chains, id);
    TailFacts(f, t, tail, index, first);
    TailNotNext(f, b, chains, id, tail, next);
    if Stuck(t, index) {
      LeakKeeps(f, b, chains, next);
      LeakIs(f, b, chains, next);
      ChainOf(f[next := TAIL_MARK], c, chains, id);
      CacheStays(cache, lru, f, t, f[next := TAIL_MARK], t);
    } else {
      AppendKeeps(f, b, chains, id, next);
      ChainOf(Linked(f, t, next), c, chains[id := t + [next]], id);
      CacheGrows(cache, lru, f, t, Linked(f, t, next), next);
    }
  }

  function HeadOf(s: seq<nat>): nat {
    if s == [] then 0 else s[0]
  }

  /** Growing one chain leaves the cached lines of every other chain true. */
  lemma OtherCachesStayTrue(fat: seq<nat>, bits: seq<bool>, before: seq<seq<nat>>, f: seq<nat>, b: seq<bool>,
      after: seq<seq<nat>>,
      id: nat, k: nat, cache: seq<Line>, lru: seq<Line>)
    requires VolumeOk(fat, bits, before) && VolumeOk(f, b, after) && Grown(before, after, id)
    requires k < |before| && k != id && CacheOk(cache, lru, fat, HeadOf(before[k]))
    ensures CacheOk(cache, lru, f, HeadOf(after[k]))
  {
    if before[k] == [] {
      NoLinesOnEmpty(cache, lru, fat);
    } else {
      CacheStays(cache, lru, fat, before[k], f, after[k]);
    }
  }

  lemma TailNext(t: seq<nat>, next: nat, tail: Line, index: nat, first: nat, n: nat)
    requires tail == Line(|t|, next)
    ensures index > 0 ==> TailOk(t + [next], tail, index, first)
    ensures |t + [next]| == |t| + 1
  {
  }

  lemma WalkNone(fat: seq<nat>, c: nat)
    ensures Walk(fat, c, 0) == c
  {
  }

  lemma LineIs(l: Line, fat: seq<nat>, first: nat)
    requires TrueLine(l, fat, first)
    ensures l.cluster == Walk(fat, first, l.index) && l.cluster != 0
  {
  }

  lemma TrueLineIs(l: Line, fat: seq<nat>, first: nat)
    requires l.index >= 1 && l.cluster != 0 && l.cluster == Walk(fat, first, l.index)
    ensures TrueLine(l, fat, first)
  {
  }

  lemma CacheLine(cache: seq<Line>, lru: seq<Line>, fat: seq<nat>, first: nat, k: nat)
    requires CacheOk(cache, lru, fat, first) && k < |cache|
    ensures cache[k].index >= 1 && cache[k].cluster != 0 && cache[k].cluster == Walk(fat, first, cache[k].index)
  {
    assert TrueLine(cache[k], fat, first);
  }

  lemma SlotIs(s: seq<Line>, k: nat, index: nat)
    requires k <= |s| && (forall i :: 0 <= i < k ==> s[i].index > index) && (k < |s| ==> s[k].index < index)
    ensures Slot(s, k, index)
  {
  }

  lemma Follow(fat: seq<nat>, first: nat, i: nat, c: nat)
    requires c == Walk(fat, first, i) && c != 0
    ensures Walk(fat, first, i + 1) == if Entry(fat, c) >= EOC then 0 else Entry(fat, c)
  {
    WalkOn(fat, first, i);
  }

  lemma TouchHit(lru: seq<Line>, n: nat, limit: nat)
    requires n < |lru| <= limit && forall i :: 0 <= i < n ==> lru[i].index != lru[n].index
    ensures Touched(lru, lru[n], limit) == [lru[n]] + lru[..n] + lru[n + 1..]
    ensures n == 0 ==> Touched(lru, lru[n], limit) == lru
  {
    RemoveFirst(lru, n);
    assert [lru[n]] + (lru[..n] + lru[n + 1..]) == [lru[n]] + lru[..n] + lru[n + 1..];
  }

  lemma TouchMiss(lru: seq<Line>, x: Line, limit: nat)
    requires 0 < limit && |lru| <= limit && forall i :: 0 <= i < |lru| ==> lru[i].index != x.index
    ensures Touched(lru, x, limit) == if |lru| < limit then [x] + lru else ([x] + lru)[..limit]
  {
    RemoveNone(lru, x);
  }
}
