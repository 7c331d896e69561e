/** Exceptions as they cross the C ABI: `CopyUtf8` and `CopyException` of
    chromium/bridge/nts_blink_dom.cc and `nts_web_exception_dispose` of
    src/runtime/nts_web_exception.c, over a C heap whose malloc may fail at any time. */
module Exceptions {
  import opened Abi
  import opened Heaps

  newtype Byte = b: int | 0 <= b < 0x100

  type Bytes = seq<Byte>

  // ----- records -----

  // NtsOwnedUtf8.
  datatype OwnedUtf8 = OwnedUtf8(data: Option<nat>, length: nat)

  const NO_BYTES := OwnedUtf8(None, 0)

  // NtsWebException.
  datatype Record = Record(status: Status, legacyCode: nat, name: OwnedUtf8, message: OwnedUtf8)

  const CLEAN := Record(Ok, 0, NO_BYTES, NO_BYTES)

  function Buffers(r: Record): set<nat> {
    (if r.name.data.Some? then {r.name.data.value} else {})
    + (if r.message.data.Some? then {r.message.data.value} else {})
  }

  // ----- what Blink raised -----

  datatype Kind = NoException | DOMException | SecurityError | JsRangeError | JsTypeError | JsSyntaxError

  // blink::WebExceptionState: `domName` is DOMException::GetErrorName of the code.
  datatype Source = Source(kind: Kind, code: int, domName: Bytes, message: Bytes)

  // The legacy codes of the DOMException names table of the Web IDL Standard.
  const LEGACY_CODE_MIN: int := 1
  const LEGACY_CODE_MAX: int := 25

  function LegacyDOMCode(code: int): nat {
    if LEGACY_CODE_MIN <= code <= LEGACY_CODE_MAX then code else 0
  }

  function NativeStatus(s: Source): Status {
    match s.kind
    case NoException => Ok
    case DOMException | SecurityError => DomException
    case JsRangeError => RangeError
    case JsTypeError => TypeError
    case JsSyntaxError => SyntaxError
  }

  function Ascii(text: string): Bytes {
    seq(|text|, i requires 0 <= i < |text| => (text[i] as int % 0x100) as Byte)
  }

  function ExceptionName(s: Source): Bytes {
    match s.kind
    case NoException => []
    case DOMException | SecurityError => s.domName
    case JsRangeError => Ascii("RangeError")
    case JsTypeError => Ascii("TypeError")
    case JsSyntaxError => Ascii("SyntaxError")
  }

  // ----- copying and disposing -----

  datatype Copied = Copied(heap: Heap<Bytes>, ok: bool, out: OwnedUtf8)

  function CopyUtf8(h: Heap<Bytes>, source: Bytes, alloc: bool): Copied {
    if source == [] then Copied(h, true, NO_BYTES)
    else if !alloc then Copied(h, false, NO_BYTES)
    else Copied(Malloc(h, source), true, OwnedUtf8(Some(h.mallocs), |source|))
  }

  datatype Produced = Produced(heap: Heap<Bytes>, record: Record)

  // Whether each of the two allocations succeeds.
  datatype AllocChoices = AllocChoices(name: bool, message: bool)

  function CopyException(h: Heap<Bytes>, s: Source, a: AllocChoices): Produced {
    if NativeStatus(s) == Ok then Produced(h, CLEAN)
    else
      var legacy := if s.kind.DOMException? || s.kind.SecurityError? then LegacyDOMCode(s.code) else 0;
      var n := CopyUtf8(h, ExceptionName(s), a.name);
      var m := if n.ok then CopyUtf8(n.heap, s.message, a.message) else Copied(n.heap, false, NO_BYTES);
      if !m.ok then Produced(Free(Free(m.heap, n.out.data), m.out.data), CLEAN.(status := OutOfMemory))
      else Produced(m.heap, Record(NativeStatus(s), legacy, n.out, m.out))
  }

  function Dispose(h: Heap<Bytes>, r: Record): Produced {
    Produced(Free(Free(h, r.name.data), r.message.data), CLEAN)
  }

  // ----- one call -----

  // The buffer holds these bytes, and the length says so.
  predicate Carries(h: Heap<Bytes>, out: OwnedUtf8, bytes: Bytes) {
    out.length == |bytes| &&
    match out.data
    case None => bytes == []
    case Some(k) => bytes != [] && k in h.blocks && h.blocks[k] == bytes
  }

  // How each kind of exception is reported. The texts are given byte by byte.
  predicate Reports(kind: Kind, status: Status, name: Bytes, domName: Bytes) {
    match kind
    case NoException => status == Ok
    case DOMException => status == DomException && name == domName
    case SecurityError => status == DomException && name == domName
    case JsRangeError =>
      status == RangeError && name == [0x52, 0x61, 0x6e, 0x67, 0x65, 0x45, 0x72, 0x72, 0x6f, 0x72]
    case JsTypeError => status == TypeError && name == [0x54, 0x79, 0x70, 0x65, 0x45, 0x72, 0x72, 0x6f, 0x72]
    case JsSyntaxError =>
      status == SyntaxError && name == [0x53, 0x79, 0x6e, 0x74, 0x61, 0x78, 0x45, 0x72, 0x72, 0x6f, 0x72]
  }

  lemma NamesReported(s: Source)
    ensures Reports(s.kind, NativeStatus(s), ExceptionName(s), s.domName)
  {
    assert Ascii("RangeError") == [0x52, 0x61, 0x6e, 0x67, 0x65, 0x45, 0x72, 0x72, 0x6f, 0x72];
    assert Ascii("TypeError") == [0x54, 0x79, 0x70, 0x65, 0x45, 0x72, 0x72, 0x6f, 0x72];
    assert Ascii("SyntaxError") == [0x53, 0x79, 0x6e, 0x74, 0x61, 0x78, 0x45, 0x72, 0x72, 0x6f, 0x72];
  }

  // A produced exception carries copies of the name and message in buffers of its own; when
  // memory runs out, at either copy, the record is clean and every buffer is gone again.
  lemma CopyExceptionLaw(h: Heap<Bytes>, s: Source, a: AllocChoices)
    requires HeapOK(h)
    ensures var p := CopyException(h, s, a);
            && HeapOK(p.heap)
            && (p.record.status == OutOfMemory ==>
                  p.record == CLEAN.(status := OutOfMemory) && p.heap.blocks == h.blocks)
            && (p.record.status != OutOfMemory ==>
                  && (s.kind.NoException? ==> p.record == CLEAN && p.heap == h)
                  && (!s.kind.NoException? ==>
                        && Carries(p.heap, p.record.message, s.message)
                        && exists name :: Reports(s.kind, p.record.status, name, s.domName)
                                          && Carries(p.heap, p.record.name, name)))
            && Buffers(p.record) !! h.blocks.Keys
            && p.heap.blocks.Keys == h.blocks.Keys + Buffers(p.record)
            && (forall k :: k in h.blocks ==> p.heap.blocks[k] == h.blocks[k])
            && (p.record.name.data.Some? ==> p.record.name.data != p.record.message.data)
  {
    hide HeapOK, ExceptionName, CopyUtf8, Carries, Buffers, Free, Ascii;
    NoBuffers();
    NamesReported(s);
    if NativeStatus(s) != Ok {
      CopyLaw(h, ExceptionName(s), a.name);
      var n := CopyUtf8(h, ExceptionName(s), a.name);
      if n.ok {
        CopyLaw(n.heap, s.message, a.message);
        var m := CopyUtf8(n.heap, s.message, a.message);
        if m.ok { BothCopied(h, n, m, ExceptionName(s), s.message); } else { FirstFreed(h, n, ExceptionName(s)); }
      } else {
        NothingFreed(h);
      }
    }
  }

  lemma NoBuffers()
    ensures Buffers(CLEAN) == {} && Buffers(CLEAN.(status := OutOfMemory)) == {}
  {
  }

  lemma NothingFreed(h: Heap<Bytes>)
    ensures Free(h, None) == h
  {
  }

  lemma FirstFreed(h: Heap<Bytes>, n: Copied, name: Bytes)
    requires HeapOK(n.heap) && (n.out.data.None? ==> n.heap == h)
    requires n.out.data.Some? ==> n.out.data.value !in h.blocks && n.heap.blocks == h.blocks[n.out.data.value := name]
    ensures HeapOK(Free(Free(n.heap, n.out.data), None)) && Free(Free(n.heap, n.out.data), None).blocks == h.blocks
  {
    FreeKeeps(n.heap, n.out.data);
    hide HeapOK;
  }

  lemma BothCopied(h: Heap<Bytes>, n: Copied, m: Copied, name: Bytes, message: Bytes)
    requires Carries(n.heap, n.out, name) && Carries(m.heap, m.out, message)
    requires n.out.data.None? ==> n.heap == h
    requires n.out.data.Some? ==> n.out.data.value !in h.blocks && n.heap.blocks == h.blocks[n.out.data.value := name]
    requires m.out.data.None? ==> m.heap == n.heap
    requires m.out.data.Some? ==>
               m.out.data.value !in n.heap.blocks && m.heap.blocks == n.heap.blocks[m.out.data.value := message]
    ensures Carries(m.heap, n.out, name)
    ensures forall status, legacy :: Buffers(Record(status, legacy, n.out, m.out)) !! h.blocks.Keys
    ensures forall status, legacy :: m.heap.blocks.Keys == h.blocks.Keys + Buffers(Record(status, legacy, n.out, m.out))
    ensures forall k :: k in h.blocks ==> m.heap.blocks[k] == h.blocks[k]
    ensures n.out.data.Some? ==> n.out.data != m.out.data
  {
  }

  // One copy: a new block with the bytes, or nothing.
  lemma CopyLaw(h: Heap<Bytes>, bytes: Bytes, alloc: bool)
    requires HeapOK(h)
    ensures var c := CopyUtf8(h, bytes, alloc);
            && HeapOK(c.heap)
            && (c.ok <==> bytes == [] || alloc)
            && (c.ok ==> Carries(c.heap, c.out, bytes))
            && (!c.ok ==> c.heap == h && c.out == NO_BYTES)
            && (c.out.data.None? ==> c.heap == h)
            && (c.out.data.Some? ==>
                  c.out.data.value !in h.blocks && c.heap.blocks == h.blocks[c.out.data.value := bytes])
  {
    MallocKeeps(h, bytes);
    hide HeapOK;
  }

  // Memory runs out exactly when a nonempty part cannot be copied; only DOM exceptions carry
  // a legacy code, and then it is the exception's own, if it has one.
  lemma CopyExceptionStatus(h: Heap<Bytes>, s: Source, a: AllocChoices)
    ensures var p := CopyException(h, s, a);
            && (p.record.status == OutOfMemory <==>
                  && !s.kind.NoException?
                  && ((!a.name && !((s.kind.DOMException? || s.kind.SecurityError?) && s.domName == []))
                      || (!a.message && s.message != [])))
            && (p.record.legacyCode != 0 <==>
                  p.record.status == DomException && 1 <= s.code <= 25)
            && (p.record.legacyCode != 0 ==> p.record.legacyCode == s.code)
  {
    NamesReported(s);
    hide Ascii, Free;
  }

  // Disposing twice is disposing once.
  lemma DisposeIdempotent(h: Heap<Bytes>, r: Record)
    ensures var p := Dispose(h, r);
            p.record == CLEAN && Dispose(p.heap, p.record) == p
  {
  }

  // ----- every run -----

  // All the exception records a program holds, and the heap.
  datatype Store = Store(heap: Heap<Bytes>, records: seq<Record>)

  datatype ExceptionStep =
    | Produce(source: Source, alloc: AllocChoices) // into a fresh record
    | DisposeRecord(i: nat)                        // any record, any number of times

  function NextStore(s: Store, step: ExceptionStep): Store {
    match step
    case Produce(source, alloc) =>
      var p := CopyException(s.heap, source, alloc);
      Store(p.heap, s.records + [p.record])
    case DisposeRecord(i) =>
      if i >= |s.records| then s
      else
        var p := Dispose(s.heap, s.records[i]);
        Store(p.heap, s.records[i := p.record])
  }

  function RunStore(s: Store, steps: seq<ExceptionStep>): Store
    decreases |steps|
  {
    if steps == [] then s else RunStore(NextStore(s, steps[0]), steps[1..])
  }

  predicate HeldBy(records: seq<Record>, k: nat, i: nat) {
    i < |records| && k in Buffers(records[i])
  }

  // The live blocks are exactly the buffers of the records, each held by one field of one.
  ghost predicate Owned(s: Store) {
    && HeapOK(s.heap)
    && (forall k, i :: HeldBy(s.records, k, i) ==> k in s.heap.blocks)
    && (forall k :: k in s.heap.blocks ==> exists i :: HeldBy(s.records, k, i))
    && (forall k, i, j :: HeldBy(s.records, k, i) && HeldBy(s.records, k, j) ==> i == j)
    && (forall i :: 0 <= i < |s.records| && s.records[i].name.data.Some? ==>
          s.records[i].name.data != s.records[i].message.data)
  }

  lemma ProduceKeeps(s: Store, source: Source, alloc: AllocChoices)
    requires Owned(s)
    ensures Owned(NextStore(s, Produce(source, alloc)))
  {
    hide HeapOK, CopyException, Buffers;
    CopyExceptionLaw(s.heap, source, alloc);
    var p := CopyException(s.heap, source, alloc);
    var s' := NextStore(s, Produce(source, alloc));
    forall k, i
      ensures HeldBy(s'.records, k, i) <==> HeldBy(s.records, k, i) || (i == |s.records| && k in Buffers(p.record))
    {
    }
    forall k | k in p.heap.blocks ensures exists i :: HeldBy(s'.records, k, i) {
      if k in s.heap.blocks {
        var i :| HeldBy(s.records, k, i);
        assert HeldBy(s'.records, k, i);
      } else {
        assert HeldBy(s'.records, k, |s.records|);
      }
    }
  }

  lemma DisposeLaw(h: Heap<Bytes>, r: Record)
    requires HeapOK(h) && Buffers(r) <= h.blocks.Keys && (r.name.data.Some? ==> r.name.data != r.message.data)
    ensures HeapOK(Dispose(h, r).heap) && Dispose(h, r).heap.blocks == h.blocks - Buffers(r)
    ensures Dispose(h, r).record == CLEAN && Buffers(CLEAN) == {}
  {
    hide HeapOK;
    FreeKeeps(h, r.name.data);
    FreeKeeps(Free(h, r.name.data), r.message.data);
  }

  lemma DisposeKeeps(s: Store, i: nat)
    requires Owned(s)
    ensures Owned(NextStore(s, DisposeRecord(i)))
  {
    hide HeapOK, Dispose, Buffers;
    if i < |s.records| {
      forall k | k in Buffers(s.records[i]) ensures k in s.heap.blocks { assert HeldBy(s.records, k, i); }
      DisposeLaw(s.heap, s.records[i]);
      var s' := NextStore(s, DisposeRecord(i));
      forall k, j ensures HeldBy(s'.records, k, j) <==> HeldBy(s.records, k, j) && j != i {
      }
      forall k, j | HeldBy(s'.records, k, j) ensures k in s'.heap.blocks {
        assert HeldBy(s.records, k, j) && !HeldBy(s.records, k, i);
      }
      forall k | k in s'.heap.blocks ensures exists j :: HeldBy(s'.records, k, j) {
        var j :| HeldBy(s.records, k, j);
        assert !HeldBy(s.records, k, i);
        assert HeldBy(s'.records, k, j);
      }
    }
  }

  lemma {:induction false} RunOwned(s: Store, steps: seq<ExceptionStep>)
    requires Owned(s)
    ensures Owned(RunStore(s, steps))
    decreases |steps|
  {
    hide Owned, NextStore;
    if steps != [] {
      match steps[0] {
        case Produce(source, alloc) => ProduceKeeps(s, source, alloc);
        case DisposeRecord(i) => DisposeKeeps(s, i);
      }
      RunOwned(NextStore(s, steps[0]), steps[1..]);
    }
  }

  lemma FreshOwned()
    ensures Owned(Store(FreshHeap(), []))
  {
  }

  // Over every run, whatever allocations fail and whatever is disposed how often: nothing is
  // freed that was not allocated, every block ever allocated was freed exactly once or is
  // still live, and the live blocks are exactly the buffers of undisposed records.
  lemma BuffersConserved(steps: seq<ExceptionStep>, k: nat)
    ensures var s := RunStore(Store(FreshHeap(), []), steps);
            && !s.heap.fault
            && (k < s.heap.mallocs ==>
                  multiset(s.heap.freed)[k] == if exists i :: HeldBy(s.records, k, i) then 0 else 1)
            && (k in s.heap.blocks <==> exists i :: HeldBy(s.records, k, i))
            && (forall i, j :: HeldBy(s.records, k, i) && HeldBy(s.records, k, j) ==> i == j)
  {
    hide RunStore, Buffers;
    RunOwned(Store(FreshHeap(), []), steps);
  }

  // Once every record has been disposed nothing is left.
  lemma AllDisposed(steps: seq<ExceptionStep>)
    ensures var s := RunStore(Store(FreshHeap(), []), steps);
            (forall i :: 0 <= i < |s.records| ==> Buffers(s.records[i]) == {}) ==> s.heap.blocks == map[]
  {
    hide RunStore, Buffers, HeapOK;
    FreshOwned();
    RunOwned(Store(FreshHeap(), []), steps);
    var s := RunStore(Store(FreshHeap(), []), steps);
    forall k | k in s.heap.blocks ensures exists i :: HeldBy(s.records, k, i) {}
  }
}
