/** The byte accounting of zmalloc.c, in the build that keeps a size prefix in front of every block. */
module Zmalloc {
  import opened Words

  const PREFIX_SIZE: nat := 8
  const NULL: nat := 0

  // Sizes are padded to whole longs.
  function Padded(size: nat): (p: nat)
    ensures size <= p < size + 8 && p % 8 == 0
  {
    if size % 8 != 0 then size + (8 - size % 8) else size
  }

  function ZmallocSize(size: nat): nat {
    Padded(size) + PREFIX_SIZE
  }

  // What all live blocks take up together; blocks maps each address handed out to the size in its prefix.
  ghost function Total(blocks: map<nat, nat>): nat
    decreases |blocks|
  {
    if blocks == map[] then 0
    else
      var p :| p in blocks;
      ZmallocSize(blocks[p]) + Total(blocks - {p})
  }

  // The total may be taken apart at any block.
  lemma {:induction false} TotalWithout(blocks: map<nat, nat>, p: nat)
    requires p in blocks
    ensures Total(blocks) == ZmallocSize(blocks[p]) + Total(blocks - {p})
    decreases |blocks|
  {
    var q :| q in blocks && Total(blocks) == ZmallocSize(blocks[q]) + Total(blocks - {q});
    if q != p {
      TotalWithout(blocks - {q}, p);
      TotalWithout(blocks - {p}, q);
      assert blocks - {q} - {p} == blocks - {p} - {q};
    }
  }

  lemma TotalWith(blocks: map<nat, nat>, p: nat, size: nat)
    requires p !in blocks
    ensures Total(blocks[p := size]) == ZmallocSize(size) + Total(blocks)
  {
    TotalWithout(blocks[p := size], p);
    assert blocks[p := size] - {p} == blocks;
  }

  // Padding before or after adding the prefix comes to the same.
  lemma PaddedPrefix(size: nat)
    ensures Padded(size + PREFIX_SIZE) == ZmallocSize(size)
  {
  }

  lemma Counted(total: int, n: nat)
    ensures Wrap(Wrap(total) + n) == Wrap(total + n)
  {
    WrapAdd(total, n);
  }

  lemma Discounted(total: int, n: nat)
    ensures Wrap(Wrap(total) - n) == Wrap(total - n)
  {
    var m: int := n;
    WrapAdd(total, -m);
  }

  // used_memory and the live blocks, each with the size its prefix holds.
  class Zmalloc {
    var usedMemory: Word
    var blocks: map<nat, nat>

    constructor ()
      ensures Valid() && blocks == map[]
    {
      usedMemory, blocks := 0, map[];
    }

    // The counter is the true total, modulo the word size.
    ghost predicate Valid()
      reads this
    {
      NULL !in blocks && usedMemory == Wrap(Total(blocks))
    }

    // update_zmalloc_stat_alloc.
    method StatAlloc(n: nat)
      modifies `usedMemory
      ensures usedMemory == Wrap(old(usedMemory) + Padded(n))
    {
      var m := n;
      if m % 8 != 0 {
        m := m + (8 - m % 8);
      }
      usedMemory := Wrap(usedMemory + m);
    }

    // update_zmalloc_stat_free.
    method StatFree(n: nat)
      modifies `usedMemory
      ensures usedMemory == Wrap(old(usedMemory) - Padded(n))
    {
      var m := n;
      if m % 8 != 0 {
        m := m + (8 - m % 8);
      }
      usedMemory := Wrap(usedMemory - m);
    }

    // zmalloc and zcalloc; at is where malloc puts the new block.
    method Alloc(size: nat, at: nat) returns (ptr: nat)
      requires Valid() && at != NULL && at !in blocks
      modifies this
      ensures Valid() && ptr == at && blocks == old(blocks)[at := size]
    {
      TotalWith(blocks, at, size);
      Counted(Total(blocks), ZmallocSize(size));
      PaddedPrefix(size);
      blocks := blocks[at := size];
      StatAlloc(size + PREFIX_SIZE);
      ptr := at;
    }

    // zrealloc; the block moves to at, perhaps its old place. Both updates of the counter leave out the prefix.
    method Realloc(ptr: nat, size: nat, at: nat) returns (newptr: nat)
      requires Valid() && at != NULL && (ptr == NULL || ptr in blocks) && (at == ptr || at !in blocks)
      modifies this
      ensures Valid() && newptr == at && blocks == (old(blocks) - {ptr})[at := size]
    {
      if ptr == NULL {
        assert blocks - {ptr} == blocks;
        newptr := Alloc(size, at);
        return;
      }
      var oldsize := blocks[ptr];
      ghost var kept := blocks - {ptr};
      TotalWithout(blocks, ptr);
      TotalWith(kept, at, size);
      Discounted(Total(blocks), Padded(oldsize));
      Counted(Total(blocks) - Padded(oldsize), Padded(size));
      blocks := (blocks - {ptr})[at := size];
      StatFree(oldsize);
      StatAlloc(size);
      newptr := at;
    }

    // zfree.
    method Free(ptr: nat)
      requires Valid() && (ptr == NULL || ptr in blocks)
      modifies this
      ensures Valid() && blocks == old(blocks) - {ptr}
    {
      if ptr == NULL {
        assert blocks - {ptr} == blocks;
        return;
      }
      var oldsize := blocks[ptr];
      TotalWithout(blocks, ptr);
      Discounted(Total(blocks), ZmallocSize(oldsize));
      PaddedPrefix(oldsize);
      blocks := blocks - {ptr};
      StatFree(oldsize + PREFIX_SIZE);
    }
  }

  // One call of the allocator; ptr is what it is given, at where the block ends up.
  datatype Call = AllocCall(size: nat, at: nat) | ReallocCall(ptr: nat, size: nat, at: nat) | FreeCall(ptr: nat)

  predicate Allowed(blocks: map<nat, nat>, c: Call) {
    match c
    case AllocCall(_, at) => at != NULL && at !in blocks
    case ReallocCall(ptr, _, at) => at != NULL && (ptr == NULL || ptr in blocks) && (at == ptr || at !in blocks)
    case FreeCall(ptr) => ptr == NULL || ptr in blocks
  }

  // The live blocks one call leaves; a call not allowed is not made.
  function AfterOne(blocks: map<nat, nat>, c: Call): map<nat, nat> {
    if !Allowed(blocks, c) then blocks
    else
      match c
      case AllocCall(size, at) => blocks[at := size]
      case ReallocCall(ptr, size, at) => (blocks - {ptr})[at := size]
      case FreeCall(ptr) => blocks - {ptr}
  }

  // The live blocks a list of calls leaves.
  function After(blocks: map<nat, nat>, calls: seq<Call>): map<nat, nat>
    decreases |calls|
  {
    if calls == [] then blocks else After(AfterOne(blocks, calls[0]), calls[1..])
  }

  // Giving a block back undoes getting it, and moving it is getting it anew; a pointer that is not live is refused, as
  // is a place that is taken.
  lemma CallsUndone(blocks: map<nat, nat>, size: nat, at: nat, size': nat, at': nat)
    requires NULL !in blocks && at != NULL && at !in blocks && at' != NULL && at' !in blocks
    ensures After(blocks, [AllocCall(size, at)]) == blocks[at := size]
    ensures After(blocks, [AllocCall(size, at), FreeCall(at)]) == blocks
    ensures After(blocks, [AllocCall(size, at), ReallocCall(at, size', at')]) == blocks[at' := size']
    ensures After(blocks, [FreeCall(at)]) == blocks && After(blocks, [ReallocCall(at, size', at')]) == blocks
    ensures After(blocks[at := size], [AllocCall(size', at)]) == blocks[at := size]
    ensures After(blocks, [FreeCall(NULL)]) == blocks
    ensures After(blocks, [ReallocCall(NULL, size, at)]) == blocks[at := size]
  {
    OneCall(blocks, AllocCall(size, at));
    OneCall(blocks, FreeCall(at));
    OneCall(blocks, FreeCall(NULL));
    OneCall(blocks, ReallocCall(at, size', at'));
    OneCall(blocks, ReallocCall(NULL, size, at));
    OneCall(blocks[at := size], AllocCall(size', at));
    TwoCalls(blocks, AllocCall(size, at), FreeCall(at));
    TwoCalls(blocks, AllocCall(size, at), ReallocCall(at, size', at'));
    assert blocks[at := size] - {at} == blocks && blocks - {NULL} == blocks;
  }

  lemma OneCall(blocks: map<nat, nat>, c: Call)
    ensures After(blocks, [c]) == AfterOne(blocks, c)
  {
    assert After(AfterOne(blocks, c), [c][1..]) == AfterOne(blocks, c);
  }

  lemma TwoCalls(blocks: map<nat, nat>, c: Call, d: Call)
    ensures After(blocks, [c, d]) == AfterOne(AfterOne(blocks, c), d)
  {
    assert [c, d][1..] == [d];
    OneCall(AfterOne(blocks, c), d);
  }

  // Any sequence of calls, those not given live pointers left out: the live blocks are the ones the calls leave, and
  // the counter is the sum of zmalloc_size over them.
  method Use(z: Zmalloc, calls: seq<Call>)
    requires z.Valid()
    modifies z
    ensures z.Valid() && z.blocks == After(old(z.blocks), calls)
    ensures z.usedMemory == Wrap(Total(After(old(z.blocks), calls)))
    ensures Total(After(old(z.blocks), calls)) < WORD ==> z.usedMemory == Total(After(old(z.blocks), calls))
  {
    assert calls[0..] == calls;
    for i := 0 to |calls|
      invariant z.Valid() && After(z.blocks, calls[i..]) == After(old(z.blocks), calls)
    {
      assert calls[i..][0] == calls[i] && calls[i..][1..] == calls[i + 1..];
      if Allowed(z.blocks, calls[i]) {
        match calls[i]
        case AllocCall(size, at) => var p := z.Alloc(size, at);
        case ReallocCall(ptr, size, at) => var p := z.Realloc(ptr, size, at);
        case FreeCall(ptr) => z.Free(ptr);
      }
    }
  }

  // A block takes up its size rounded up to whole longs of 8 bytes, and 8 bytes more.
  lemma SizeIs(size: nat)
    ensures ZmallocSize(size) % 8 == 0 && size + 8 <= ZmallocSize(size) < size + 16
  {
  }
}
