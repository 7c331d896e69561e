/** What the handle table of src/runtime/nts_handle_table.c computes, as functions
    on values. A table is a sequence of cells plus the stack of reusable indices.
    A cell counts how often its slot was reset; the 32-bit generation is derived
    from that count. A log of events records the history that the theorems speak
    about; no operation reads it.

    The user's destroy hook may call back into the table. What one hook call does is
    a finite script of operations, each carrying the scripts of the hook calls that it
    triggers in turn. Because a theorem holds for every script, it holds for hooks
    that choose their next call by looking at the result of the previous one. */
module TableSpec {
  import opened Abi

  // ----- generations -----

  // Generation 0 is never issued, so a slot runs through this many generations.
  const PERIOD: nat := UINT32_MAX

  function NextGeneration(generation: nat): nat {
    var next := (generation + 1) % (UINT32_MAX + 1);
    if next == 0 then 1 else next
  }

  // The generation a slot carries after `resets` resets.
  function Generation(resets: nat): nat {
    resets % PERIOD + 1
  }

  // ----- growth -----

  const SLOT_BYTES: nat := 32
  const SIZE_MODULUS_64: nat := 0x1_0000_0000_0000_0000

  // The capacity the next reallocation asks for, or None when growing is refused.
  // Arithmetic is that of a size_t with `modulus` values.
  function GrownCapacity(capacity: nat, modulus: nat): Option<nat>
    requires modulus > 0
  {
    var doubled := (if capacity == 0 then 16 else capacity * 2) % modulus;
    var limit := (UINT32_MAX % modulus + 1) % modulus;
    var target := if doubled < capacity || doubled > limit then limit else doubled;
    if target <= capacity then None
    else if target > (modulus - 1) / SLOT_BYTES then None
    else Some(target)
  }

  // The capacity of a table whose high-water mark is n.
  function CapacityFor(n: nat): nat {
    if n == 0 then 0
    else
      var c := CapacityFor(n - 1);
      if n - 1 < c then c else if c == 0 then 16 else 2 * c
  }

  // ----- state -----

  // A 32-bit reference count of an occupied slot.
  type RefCount = n: nat | 1 <= n <= UINT32_MAX witness 1

  datatype Entry<T> = Entry(token: T, typeId: nat, references: RefCount)

  datatype Cell<T> = Cell(resets: nat, entry: Option<Entry<T>>)

  // One issue of a slot: the slot and how often it had been reset by then.
  datatype Key = Key(slot: nat, resets: nat)

  datatype Event<T> =
    | Issued(key: Key, token: T)
    | Retained(key: Key)
    | Released(key: Key)
    // The slot was reset; `hookCalled` says whether the destroy hook got the token.
    | Retired(key: Key, token: T, hookCalled: bool)

  datatype Table<T> = Table(
    cells: seq<Cell<T>>,
    free: seq<nat>,
    invalidated: bool,
    hooked: bool,
    log: seq<Event<T>>)

  function Empty<T>(hooked: bool): Table<T> {
    Table([], [], false, hooked, [])
  }

  predicate Occupied<T>(t: Table<T>, i: nat) {
    i < |t.cells| && t.cells[i].entry.Some?
  }

  function KeyAt<T>(t: Table<T>, i: nat): Key
    requires i < |t.cells|
  {
    Key(i, t.cells[i].resets)
  }

  function HandleAt<T>(t: Table<T>, i: nat): Handle
    requires i < |t.cells|
  {
    Handle(i, Generation(t.cells[i].resets))
  }

  predicate Matches<T>(t: Table<T>, h: Handle) {
    h.generation != 0 && Occupied(t, h.slot) && HandleAt(t, h.slot) == h
  }

  // ----- operations -----

  datatype Inserted<T> = Inserted(table: Table<T>, status: Status, handle: Handle)

  // `fired` says that the destroy hook is called on `token` next, on this very table.
  datatype Outcome<T> = Outcome(table: Table<T>, status: Status, fired: bool)

  // Whether a slot can be reserved; `alloc` is the outcome of realloc, should it be called.
  predicate CanReserve<T>(t: Table<T>, alloc: bool) {
    || t.free != []
    || (|t.cells| < UINT32_MAX && (|t.cells| < CapacityFor(|t.cells|) || alloc))
  }

  function NextIndex<T>(t: Table<T>): nat {
    if t.free != [] then t.free[0] else |t.cells|
  }

  function Put<T>(cells: seq<Cell<T>>, i: nat, c: Cell<T>): seq<Cell<T>> {
    if i < |cells| then cells[i := c] else cells + [c]
  }

  function Insert<T>(t: Table<T>, typeId: nat, token: Option<T>, hasOut: bool, alloc: bool): Inserted<T> {
    if !hasOut || token.None? || typeId == 0 then
      Inserted(t, InvalidArgument, NULL_HANDLE)
    else if t.invalidated then
      Inserted(t, ContextDestroyed, NULL_HANDLE)
    else if !CanReserve(t, alloc) then
      Inserted(t, OutOfMemory, NULL_HANDLE)
    else
      var i := NextIndex(t);
      var c := if i < |t.cells| then t.cells[i].resets else 0;
      var cell := Cell(c, Some(Entry(token.value, typeId, 1)));
      var cells := Put(t.cells, i, cell);
      var free := if t.free != [] then t.free[1..] else [];
      var log := t.log + [Issued(Key(i, c), token.value)];
      Inserted(t.(cells := cells, free := free, log := log), Ok, Handle(i, Generation(c)))
  }

  function Retain<T>(t: Table<T>, h: Handle): Outcome<T> {
    if t.invalidated then Outcome(t, ContextDestroyed, false)
    else if !Matches(t, h) then Outcome(t, InvalidHandle, false)
    else
      var cell := t.cells[h.slot];
      var e := cell.entry.value;
      if e.references == UINT32_MAX then Outcome(t, OutOfMemory, false)
      else
        var cells := t.cells[h.slot := cell.(entry := Some(e.(references := e.references + 1)))];
        Outcome(t.(cells := cells, log := t.log + [Retained(KeyAt(t, h.slot))]), Ok, false)
  }

  function Reset<T>(t: Table<T>, i: nat): Table<T>
    requires Occupied(t, i)
  {
    var cell := t.cells[i];
    t.(cells := t.cells[i := Cell(cell.resets + 1, None)],
       free := [i] + t.free,
       log := t.log + [Retired(KeyAt(t, i), cell.entry.value.token, t.hooked)])
  }

  function Release<T>(t: Table<T>, h: Handle): Outcome<T> {
    if t.invalidated then Outcome(t, ContextDestroyed, false)
    else if !Matches(t, h) then Outcome(t, InvalidHandle, false)
    else
      var cell := t.cells[h.slot];
      var e := cell.entry.value;
      var counted := t.(log := t.log + [Released(KeyAt(t, h.slot))]);
      if e.references == 1 then Outcome(Reset(counted, h.slot), Ok, t.hooked)
      else
        var cells := t.cells[h.slot := cell.(entry := Some(e.(references := e.references - 1)))];
        Outcome(counted.(cells := cells), Ok, false)
  }

  // Reset every occupied slot below i, from the highest index down.
  function ResetDown<T>(t: Table<T>, i: nat): (r: Table<T>)
    requires i <= |t.cells|
    ensures |r.cells| == |t.cells|
    decreases i
  {
    if i == 0 then t
    else ResetDown(if Occupied(t, i - 1) then Reset(t, i - 1) else t, i - 1)
  }

  // Reset every occupied slot from i upwards.
  function ResetUp<T>(t: Table<T>, i: nat): (r: Table<T>)
    requires i <= |t.cells|
    ensures |r.cells| == |t.cells|
    decreases |t.cells| - i
  {
    if i == |t.cells| then t
    else ResetUp(if Occupied(t, i) then Reset(t, i) else t, i + 1)
  }

  function Iota(n: nat): (s: seq<nat>)
    ensures |s| == n && forall k :: 0 <= k < n ==> s[k] == k
  {
    seq(n, k => k)
  }

  function Invalidate<T>(t: Table<T>): Table<T> {
    if t.invalidated then t
    else ResetDown(t, |t.cells|).(invalidated := true, free := Iota(|t.cells|))
  }

  // nts_handle_table_destroy: the hook gets every live token, in index order, and the
  // structure is zeroed, hooks included. Only the log remains of the old table.
  function Destroy<T>(t: Table<T>): Table<T> {
    Table([], [], false, false, ResetUp(t, 0).log)
  }

  // The type_accepts hook, when there is one.
  type Accepts = Option<(nat, nat) -> bool>

  datatype Resolved<T> = Resolved(status: Status, entry: Option<Entry<T>>)

  function Resolve<T>(t: Table<T>, accepts: Accepts, h: Handle, expected: nat, hasOut: bool): Resolved<T> {
    if !hasOut then Resolved(InvalidArgument, None)
    else if t.invalidated then Resolved(ContextDestroyed, None)
    else if !Matches(t, h) then Resolved(InvalidHandle, None)
    else
      var e := t.cells[h.slot].entry.value;
      if expected != 0 && e.typeId != expected && (accepts.None? || !accepts.value(e.typeId, expected)) then
        Resolved(InvalidHandle, None)
      else
        Resolved(Ok, Some(e))
  }

  function LiveCount<T>(cells: seq<Cell<T>>): nat {
    if cells == [] then 0
    else LiveCount(cells[..|cells| - 1]) + if cells[|cells| - 1].entry.Some? then 1 else 0
  }

  // ----- scripts: what a hook does -----

  datatype Op<T> =
    | OpInsert(typeId: nat, token: Option<T>, hasOut: bool, alloc: bool)
    | OpRetain(handle: Handle)
    // `hook` is what the destroy hook does if this release fires it.
    | OpRelease(handle: Handle, hook: Script<T>)
    | OpResolve(handle: Handle, expected: nat, hasOut: bool)
    | OpInvalidate(hooks: HookScripts<T>)

  datatype Script<T> = Done | Then(op: Op<T>, rest: Script<T>)

  // What the hook calls of one invalidation do: the k-th runs each[k], later ones `others`.
  datatype HookScripts<T> = HookScripts(each: seq<Script<T>>, others: Script<T>) {
    function At(k: nat): Script<T> {
      if k < |each| then each[k] else others
    }
  }

  function Step<T>(t: Table<T>, op: Op<T>): Table<T>
    decreases op
  {
    match op
    case OpInsert(typeId, token, hasOut, alloc) => Insert(t, typeId, token, hasOut, alloc).table
    case OpRetain(h) => Retain(t, h).table
    case OpRelease(h, hook) =>
      var o := Release(t, h);
      if o.fired then Run(o.table, hook) else o.table
    case OpResolve(_, _, _) => t
    case OpInvalidate(_) => Invalidate(t)
  }

  function Run<T>(t: Table<T>, script: Script<T>): Table<T>
    decreases script
  {
    match script
    case Done => t
    case Then(op, rest) => Run(Step(t, op), rest)
  }

  // ----- what the log says -----

  function Issues<T>(log: seq<Event<T>>, key: Key): nat {
    if log == [] then 0
    else
      var e := log[|log| - 1];
      Issues(log[..|log| - 1], key) + if e.Issued? && e.key == key then 1 else 0
  }

  function Retirements<T>(log: seq<Event<T>>, key: Key): nat {
    if log == [] then 0
    else
      var e := log[|log| - 1];
      Retirements(log[..|log| - 1], key) + if e.Retired? && e.key == key then 1 else 0
  }

  // Successful inserts and retains minus successful releases of one issue.
  function Balance<T>(log: seq<Event<T>>, key: Key): int {
    if log == [] then 0
    else
      var e := log[|log| - 1];
      Balance(log[..|log| - 1], key)
      + if e.key != key || e.Retired? then 0 else if e.Released? then -1 else 1
  }

  // The tokens the table ever accepted.
  function Taken<T>(log: seq<Event<T>>): multiset<T> {
    if log == [] then multiset{}
    else
      var e := log[|log| - 1];
      Taken(log[..|log| - 1]) + if e.Issued? then multiset{e.token} else multiset{}
  }

  // The tokens handed to the destroy hook, in order.
  function HookCalls<T>(log: seq<Event<T>>): seq<T> {
    if log == [] then []
    else
      var e := log[|log| - 1];
      HookCalls(log[..|log| - 1]) + if e.Retired? && e.hookCalled then [e.token] else []
  }

  // How many handles were live after the last event, and at most after any event.
  function LiveAfter<T>(log: seq<Event<T>>): int {
    if log == [] then 0
    else
      var e := log[|log| - 1];
      LiveAfter(log[..|log| - 1]) + if e.Issued? then 1 else if e.Retired? then -1 else 0
  }

  function Peak<T>(log: seq<Event<T>>): int {
    if log == [] then 0
    else
      var p := Peak(log[..|log| - 1]);
      if LiveAfter(log) > p then LiveAfter(log) else p
  }

  function LiveTokens<T>(cells: seq<Cell<T>>): multiset<T> {
    if cells == [] then multiset{}
    else
      var c := cells[|cells| - 1];
      LiveTokens(cells[..|cells| - 1]) + if c.entry.Some? then multiset{c.entry.value.token} else multiset{}
  }
}
