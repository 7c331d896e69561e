/** Exception records and the C heap as the C and C++ code updates them, out-parameter by
    out-parameter. Proved against the functions of Exceptions. */
module ExceptionObjects {
  import opened Abi
  import opened Exceptions
  import opened Heaps

  class CHeap {
    var state: Heap<Bytes>

    method Malloc(bytes: Bytes, alloc: bool) returns (p: Option<nat>)
      modifies this
      ensures !alloc ==> p == None && state == old(state)
      ensures alloc ==> p == Some(old(state).mallocs) && state == Heaps.Malloc(old(state), bytes)
    {
      if !alloc { return None; }
      p := Some(state.mallocs);
      state := Heaps.Malloc(state, bytes);
    }

    method Free(p: Option<nat>)
      modifies this
      ensures state == Heaps.Free(old(state), p)
    {
      state := Heaps.Free(state, p);
    }

    method CopyUtf8(source: Bytes, alloc: bool) returns (ok: bool, out: OwnedUtf8)
      modifies this
      ensures Copied(state, ok, out) == Exceptions.CopyUtf8(old(state), source, alloc)
    {
      out := NO_BYTES;
      if source == [] { return true, out; }
      var p := Malloc(source, alloc);
      if p.None? { return false, out; }
      ok, out := true, OwnedUtf8(p, |source|);
    }
  }

  class WebException {
    var status: Status
    var legacyCode: nat
    var name: OwnedUtf8
    var message: OwnedUtf8

    ghost function View(): Record
      reads this
    {
      Record(status, legacyCode, name, message)
    }

    method Clear()
      modifies this
      ensures View() == CLEAN
    {
      status, legacyCode, name, message := Ok, 0, NO_BYTES, NO_BYTES;
    }

    method CopyException(heap: CHeap, s: Source, a: AllocChoices) returns (r: Status)
      modifies this, heap
      ensures Produced(heap.state, View()) == Exceptions.CopyException(old(heap.state), s, a) && r == status
    {
      Clear();
      status := NativeStatus(s);
      if status == Ok { return status; }
      if s.kind.DOMException? || s.kind.SecurityError? { legacyCode := LegacyDOMCode(s.code); }
      var ok;
      ok, name := heap.CopyUtf8(ExceptionName(s), a.name);
      if ok { ok, message := heap.CopyUtf8(s.message, a.message); }
      if !ok {
        heap.Free(name.data);
        heap.Free(message.data);
        Clear();
        status := OutOfMemory;
      }
      r := status;
    }

    method Dispose(heap: CHeap)
      modifies this, heap
      ensures Produced(heap.state, View()) == Exceptions.Dispose(old(heap.state), old(View()))
    {
      heap.Free(name.data);
      heap.Free(message.data);
      Clear();
    }
  }
}
