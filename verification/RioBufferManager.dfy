/** The allocator of registered memory (LibNetworksRIO/RioBufferManager.cpp): a bump pointer and a
    free list that is searched for a slice of exactly the wanted size. Sizes and offsets are 32-bit
    and their sum wraps. */
module RioBufferManagers {
  import opened Rings

  const TWO_32 := 0x1_0000_0000

  type U32 = n: int | 0 <= n < 0x1_0000_0000

  datatype Slice = Slice(offset: U32, length: U32)

  predicate Apart(a: Slice, b: Slice)
  {
    a.offset + a.length <= b.offset || b.offset + b.length <= a.offset
  }

  /** The slices tile [0, end) one behind the other. */
  predicate Tiles(slices: seq<Slice>, end: int)
  {
    if slices == [] then end == 0
    else
      var last := slices[|slices| - 1];
      last.offset + last.length == end && Tiles(slices[..|slices| - 1], last.offset)
  }

  lemma {:induction false} TilesApart(slices: seq<Slice>, end: int, i: nat, j: nat)
    requires Tiles(slices, end) && i < |slices| && j < |slices| && i != j
    ensures Apart(slices[i], slices[j])
    ensures 0 <= slices[i].offset && slices[i].offset + slices[i].length <= end
    decreases |slices|
  {
    var n := |slices| - 1;
    var last := slices[n];
    TilesBelow(slices, end, i);
    if i < n && j < n {
      TilesApart(slices[..n], last.offset, i, j);
    } else if i < n {
      TilesBelow(slices[..n], last.offset, i);
    } else {
      TilesBelow(slices[..n], last.offset, j);
    }
  }

  lemma {:induction false} TilesBelow(slices: seq<Slice>, end: int, i: nat)
    requires Tiles(slices, end) && i < |slices|
    ensures slices[i].offset + slices[i].length <= end
    decreases |slices|
  {
    var n := |slices| - 1;
    if i < n {
      TilesBelow(slices[..n], slices[n].offset, i);
    }
  }

  class RioBufferManager {
    const totalSize: U32
    var currentOffset: U32
    var allocatedCount: nat
    var freeList: seq<Slice>
    ghost var carved: seq<Slice>   // every slice ever cut off, in order
    ghost var live: set<nat>       // which of them are in use
    ghost var freed: seq<nat>      // which of them each entry of the free list is

    /** Every carved slice is either in use or on the free list, there once. */
    ghost predicate Accounted()
      reads this
    {
      && |freeList| == |freed|
      && (forall k :: 0 <= k < |freed| ==> freed[k] < |carved| && freeList[k] == carved[freed[k]])
      && (forall k :: 0 <= k < |freed| ==> freed[k] !in live)
      && (forall k, l :: 0 <= k < l < |freed| ==> freed[k] != freed[l])
      && (forall i <- live :: i < |carved|)
      && |freed| + |live| == |carved|
      && allocatedCount == |live|
    }

    ghost predicate Valid()
      reads this
    {
      currentOffset <= totalSize && Tiles(carved, currentOffset) && Accounted()
    }

    /** Initialize, when memory and registration are granted. */
    constructor (totalSize: U32)
      ensures Valid() && this.totalSize == totalSize && currentOffset == 0 && live == {} && carved == []
    {
      this.totalSize := totalSize;
      currentOffset, allocatedCount, freeList, carved, live, freed := 0, 0, [], [], {}, [];
    }

    /** A slice of that size waits on the free list. */
    predicate Reusable(size: U32)
      reads this
    {
      exists k :: 0 <= k < |freeList| && freeList[k].length == size
    }

    method AllocateSlice(size: U32) returns (ok: bool, slice: Slice, ghost index: nat)
      requires Valid()
      modifies this
      // The first slice of that size that was given back is used again, the bump pointer stays.
      ensures old(Reusable(size)) ==>
                && ok && Valid() && slice.length == size && currentOffset == old(currentOffset)
                && carved == old(carved) && index < |carved| && carved[index] == slice
                && index !in old(live) && live == old(live) + {index}
                && exists k :: 0 <= k < |old(freeList)| && old(freeList)[k] == slice
                               && freeList == old(freeList)[..k] + old(freeList)[k + 1..]
                               && forall l :: 0 <= l < k ==> old(freeList)[l].length != size
      // Otherwise one is cut off, if it fits.
      ensures !old(Reusable(size)) && old(currentOffset) + size < TWO_32 ==>
                && Valid() && ok == (old(currentOffset) + size <= totalSize)
                && (ok ==> && slice == Slice(old(currentOffset), size) && index == |old(carved)|
                           && carved == old(carved) + [slice] && live == old(live) + {index}
                           && currentOffset == old(currentOffset) + size)
                && (!ok ==> unchanged(this))
      // Where the 32-bit sum wraps, the check passes and the slice runs over the end of the memory.
      ensures !old(Reusable(size)) && old(currentOffset) + size >= TWO_32 ==>
                ok && slice == Slice(old(currentOffset), size) && slice.offset + slice.length > totalSize
    {
      var it := 0;
      while it < |freeList| && freeList[it].length != size
        invariant 0 <= it <= |freeList|
        invariant forall k :: 0 <= k < it ==> freeList[k].length != size
      {
        it := it + 1;
      }
      index := 0;
      if it < |freeList| {
        index := freed[it];
        slice := TakeFree(it);
        return true, slice, index;
      }
      if (currentOffset + size) % TWO_32 > totalSize {
        return false, Slice(0, 0), 0;
      }
      slice := Slice(currentOffset, size);
      index := |carved|;
      if currentOffset + size < TWO_32 {
        CarveOne(size);
      } else {
        currentOffset := (currentOffset + size) % TWO_32;
        allocatedCount := allocatedCount + 1;
      }
      return true, slice, index;
    }

    /** Takes an entry off the free list. */
    method TakeFree(it: nat) returns (slice: Slice)
      requires Valid() && it < |freeList|
      modifies `freeList, `freed, `live, `allocatedCount
      ensures Valid() && slice == old(freeList)[it] && freeList == old(freeList)[..it] + old(freeList)[it + 1..]
      ensures live == old(live) + {old(freed)[it]}
    {
      slice := freeList[it];
      ghost var index := freed[it];
      freeList := freeList[..it] + freeList[it + 1..];
      freed := freed[..it] + freed[it + 1..];
      live := live + {index};
      allocatedCount := allocatedCount + 1;
    }

    /** Cuts a slice off at the bump pointer. */
    method CarveOne(size: U32)
      requires Valid() && currentOffset + size < TWO_32 && currentOffset + size <= totalSize
      modifies `currentOffset, `allocatedCount, `carved, `live
      ensures Valid() && carved == old(carved) + [Slice(old(currentOffset), size)]
      ensures live == old(live) + {|old(carved)|} && currentOffset == old(currentOffset) + size
    {
      ghost var slice := Slice(currentOffset, size);
      assert (carved + [slice])[..|carved|] == carved;
      live := live + {|carved|};
      carved := carved + [slice];
      currentOffset := currentOffset + size;
      allocatedCount := allocatedCount + 1;
    }

    /** DeallocateSlice: the slice goes to the free list unchecked. If it was in use, the accounts stay in
        order; if not, the free list has an entry too many. */
    method DeallocateSlice(slice: Slice, ghost index: nat)
      requires Valid()
      modifies `freeList, `freed, `live, `allocatedCount
      ensures freeList == old(freeList) + [slice]
      ensures allocatedCount == if old(allocatedCount) > 0 then old(allocatedCount) - 1 else 0
      ensures Valid() <==> old(index in live && carved[index] == slice)
      ensures Valid() ==> live == old(live) - {index}
    {
      ghost var inUse := index in live && carved[index] == slice;
      freeList := freeList + [slice];
      if inUse {
        freed := freed + [index];
        live := live - {index};
      }
      if allocatedCount > 0 {
        allocatedCount := allocatedCount - 1;
      }
    }
  }

  /** Slices in use never overlap each other or the free ones, and stay inside the memory. */
  lemma SlicesApart(m: RioBufferManager, i: nat, j: nat)
    requires m.Valid() && i < |m.carved| && j < |m.carved| && i != j
    ensures Apart(m.carved[i], m.carved[j])
    ensures m.carved[i].offset + m.carved[i].length <= m.totalSize
  {
    TilesApart(m.carved, m.currentOffset, i, j);
  }

  /** Live and free slices together are exactly the tiles of [0, currentOffset). */
  lemma LiveAndFreeTile(m: RioBufferManager)
    requires m.Valid()
    ensures Tiles(m.carved, m.currentOffset)
    ensures Members(m.freed) + m.live == Below(|m.carved|) && Members(m.freed) !! m.live
    ensures |m.freeList| + m.allocatedCount == |m.carved|
  {
    MembersCard(m.freed);
    var both := Members(m.freed) + m.live;
    assert |both| == |m.carved|;
    assert both <= Below(|m.carved|);
    SameCard(both, Below(|m.carved|));
  }

  function Members(s: seq<nat>): set<nat>
  {
    set i | i in s
  }

  lemma {:induction false} MembersCard(s: seq<nat>)
    requires forall k, l :: 0 <= k < l < |s| ==> s[k] != s[l]
    ensures |Members(s)| == |s|
  {
    if s != [] {
      var n := |s| - 1;
      MembersCard(s[..n]);
      assert s[n] !in Members(s[..n]);
      assert Members(s) == Members(s[..n]) + {s[n]};
    }
  }

  lemma SameCard(a: set<nat>, b: set<nat>)
    requires a <= b && |a| == |b|
    ensures a == b
  {
    assert |b - a| == |b| - |a|;
    assert b == a + (b - a);
  }

  function Below(n: nat): (s: set<nat>)
    ensures forall i: nat :: i in s <==> i < n
    ensures |s| == n
  {
    if n == 0 then {} else Below(n - 1) + {n - 1}
  }

  // ---- Buffers of sessions --------------------------------------------------------------

  /** The part of the memory a RIO_BUF names: a span of a ring that lies in a slice. */
  function Region(slice: Slice, span: Span): (int, int)
  {
    (slice.offset + span.offset, slice.offset + span.offset + span.length)
  }

  /** The span a session posts: the first of the readable or of the writable ones. */
  predicate Postable(r: Ring, span: Span)
    requires r.Valid()
  {
    (r.size > 0 && span == r.ReadSpans()[0]) || (r.Free() > 0 && span == r.WriteableSpans()[0])
  }

  /** Two rings over different slices, of one session or of two, never have the kernel work on the
      same byte. */
  lemma PostedRegionsApart(m: RioBufferManager, i: nat, j: nat, r1: Ring, r2: Ring, s1: Span, s2: Span)
    requires m.Valid() && i in m.live && j in m.live && i != j
    requires r1.Valid() && |r1.slots| == m.carved[i].length && Postable(r1, s1)
    requires r2.Valid() && |r2.slots| == m.carved[j].length && Postable(r2, s2)
    ensures var (a1, b1) := Region(m.carved[i], s1);
            var (a2, b2) := Region(m.carved[j], s2);
            0 <= a1 <= b1 <= m.totalSize && (b1 <= a2 || b2 <= a1)
  {
    SlicesApart(m, i, j);
  }
}
