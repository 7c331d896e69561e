/** The C and C++ heap, as far as ownership goes: which blocks are allocated, which were
    freed, and whether anything was freed that is not allocated. */
module Heaps {
  import opened Abi

  // Blocks are numbered in order of allocation, so a block freed and a later block at the
  // same address are told apart. `fault`: something was freed that is not allocated.
  datatype Heap<T> = Heap(blocks: map<nat, T>, mallocs: nat, freed: seq<nat>, fault: bool)

  function FreshHeap<T>(): Heap<T> {
    Heap(map[], 0, [], false)
  }

  function Malloc<T>(h: Heap<T>, content: T): Heap<T> {
    h.(blocks := h.blocks[h.mallocs := content], mallocs := h.mallocs + 1)
  }

  // Freeing a null pointer does nothing.
  function Free<T>(h: Heap<T>, p: Option<nat>): Heap<T> {
    match p
    case None => h
    case Some(k) =>
      if k in h.blocks then h.(blocks := h.blocks - {k}, freed := h.freed + [k]) else h.(fault := true)
  }

  // Every block ever allocated is either still there or was freed, once.
  ghost predicate HeapOK<T>(h: Heap<T>) {
    && !h.fault
    && (forall k :: k in h.blocks ==> k < h.mallocs)
    && (forall k: nat :: k < h.mallocs ==> multiset(h.freed)[k] == if k in h.blocks then 0 else 1)
    && (forall k :: k in h.freed ==> k < h.mallocs)
  }

  lemma FreshKeeps<T>()
    ensures HeapOK(FreshHeap<T>())
  {
  }

  // Freeing twice, or what was never allocated, does not go unnoticed.
  lemma FreeFaults<T>(h: Heap<T>, p: Option<nat>)
    ensures Free(h, p).fault <==> h.fault || (p.Some? && p.value !in h.blocks)
  {
  }

  lemma MallocKeeps<T>(h: Heap<T>, content: T)
    requires HeapOK(h)
    ensures HeapOK(Malloc(h, content)) && h.mallocs !in h.blocks
  {
    assert h.mallocs !in h.freed;
    assert multiset(h.freed)[h.mallocs] == 0;
  }

  lemma FreeKeeps<T>(h: Heap<T>, p: Option<nat>)
    requires HeapOK(h) && (p.Some? ==> p.value in h.blocks)
    ensures HeapOK(Free(h, p)) && Free(h, p).mallocs == h.mallocs
    ensures Free(h, p).blocks == if p.Some? then h.blocks - {p.value} else h.blocks
  {
  }

  // Freeing what was just allocated undoes the allocation.
  lemma MallocFree<T>(h: Heap<T>, content: T)
    requires HeapOK(h)
    ensures var h' := Free(Malloc(h, content), Some(h.mallocs));
            HeapOK(h') && h'.blocks == h.blocks
  {
    MallocKeeps(h, content);
    FreeKeeps(Malloc(h, content), Some(h.mallocs));
    hide HeapOK;
  }

  // ----- pointers -----

  // A pointer to an object on the heap, with the object it points to.
  datatype Pointer<T> = Pointer(address: nat, at: T)

  function Ats<T>(ps: seq<Pointer<T>>): (r: seq<T>)
    ensures |r| == |ps| && forall k :: 0 <= k < |ps| ==> r[k] == ps[k].at
  {
    seq(|ps|, k requires 0 <= k < |ps| => ps[k].at)
  }

  // `delete` for each, in order.
  function FreeAll<A, T>(h: Heap<A>, ps: seq<Pointer<T>>): Heap<A>
    decreases |ps|
  {
    if ps == [] then h else FreeAll(Free(h, Some(ps[0].address)), ps[1..])
  }

  ghost predicate Points<T>(ps: seq<Pointer<T>>, k: nat) {
    exists i :: 0 <= i < |ps| && ps[i].address == k
  }

  predicate Distinct<T>(ps: seq<Pointer<T>>) {
    forall i, j :: 0 <= i < j < |ps| ==> ps[i].address != ps[j].address
  }

  lemma DistinctCons<T>(p: Pointer<T>, ps: seq<Pointer<T>>)
    requires Distinct(ps) && forall i :: 0 <= i < |ps| ==> ps[i].address != p.address
    ensures Distinct([p] + ps)
  {
  }

  // Deleting distinct live blocks takes away exactly these.
  lemma {:induction false} FreeAllKeeps<A, T>(h: Heap<A>, ps: seq<Pointer<T>>)
    requires HeapOK(h)
    requires forall i :: 0 <= i < |ps| ==> ps[i].address in h.blocks
    requires Distinct(ps)
    ensures var h' := FreeAll(h, ps);
            && HeapOK(h') && h'.mallocs == h.mallocs
            && (forall k :: k in h'.blocks <==> k in h.blocks && !Points(ps, k))
            && (forall k :: k in h'.blocks ==> h'.blocks[k] == h.blocks[k])
    decreases |ps|
  {
    hide HeapOK;
    if ps == [] {
    } else {
      var h1 := Free(h, Some(ps[0].address));
      FreeKeeps(h, Some(ps[0].address));
      assert forall i :: 0 <= i < |ps[1..]| ==> ps[1..][i] == ps[i + 1];
      FreeAllKeeps(h1, ps[1..]);
      forall k ensures Points(ps, k) <==> k == ps[0].address || Points(ps[1..], k) {
        if Points(ps[1..], k) {
          var i :| 0 <= i < |ps[1..]| && ps[1..][i].address == k;
          assert ps[i + 1].address == k;
        }
        if Points(ps, k) && k != ps[0].address {
          var i :| 0 <= i < |ps| && ps[i].address == k;
          assert ps[1..][i - 1].address == k;
        }
      }
    }
  }
}
