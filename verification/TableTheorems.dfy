/** What the handle table guarantees over whole runs. A run starts from the empty table
    and follows any script, so every statement covers every sequence of calls and every
    nesting of calls made by the destroy hook. */
module TableTheorems {
  import opened Abi
  import opened TableSpec
  import opened TableInvariant

  // ----- re-entrancy -----

  // Once a table is invalidated nothing changes it. In particular the hook calls that
  // invalidation itself makes find every operation refused, whatever they attempt.
  lemma {:induction false} InvalidatedIsFrozen<T>(t: Table<T>, script: Script<T>)
    requires t.invalidated
    ensures Run(t, script) == t
    decreases script
  {
    if script.Done? {
    } else {
      InvalidatedIsFrozen(t, script.rest);
    }
  }

  // What any operation, with any hooks, may do to the rest of the table: reset counts only
  // grow, and an occupied slot that was not reset still holds the same token and type.
  ghost predicate Extends<T>(t: Table<T>, t': Table<T>) {
    && |t.cells| <= |t'.cells|
    && t.hooked == t'.hooked
    && t.log <= t'.log
    && HookCalls(t.log) <= HookCalls(t'.log)
    && forall i :: 0 <= i < |t.cells| ==> CellExtends(t.cells[i], t'.cells[i])
  }

  ghost predicate CellExtends<T>(c: Cell<T>, c': Cell<T>) {
    && c.resets <= c'.resets
    && (c.entry.Some? && c.resets == c'.resets ==>
          && c'.entry.Some?
          && c'.entry.value.token == c.entry.value.token
          && c'.entry.value.typeId == c.entry.value.typeId)
  }

  lemma ExtendsTrans<T>(t: Table<T>, u: Table<T>, v: Table<T>)
    requires Extends(t, u) && Extends(u, v)
    ensures Extends(t, v)
  {
    forall i | 0 <= i < |t.cells| ensures CellExtends(t.cells[i], v.cells[i]) {
      assert CellExtends(u.cells[i], v.cells[i]);
    }
  }

  lemma ResetExtends<T>(t: Table<T>, i: nat)
    requires Occupied(t, i)
    ensures Extends(t, Reset(t, i))
  {
    SnocTokens(t.log, Reset(t, i).log[|t.log|]);
  }

  lemma {:induction false} ResetDownExtends<T>(t: Table<T>, i: nat)
    requires i <= |t.cells|
    ensures Extends(t, ResetDown(t, i))
    decreases i
  {
    if i == 0 {
    } else {
      hide Extends;
      var u := if Occupied(t, i - 1) then Reset(t, i - 1) else t;
      ExtendsRefl(t);
      if Occupied(t, i - 1) { ResetExtends(t, i - 1); }
      ResetDownExtends(u, i - 1);
      ExtendsTrans(t, u, ResetDown(u, i - 1));
    }
  }

  lemma ExtendsRefl<T>(t: Table<T>)
    ensures Extends(t, t)
  {
  }

  lemma ReleaseExtends<T>(t: Table<T>, h: Handle)
    ensures Extends(t, Release(t, h).table)
  {
    var o := Release(t, h);
    if o.status == Ok {
      var counted := t.(log := t.log + [Released(KeyAt(t, h.slot))]);
      SnocTokens(t.log, Released(KeyAt(t, h.slot)));
      if t.cells[h.slot].entry.value.references == 1 { ResetExtends(counted, h.slot); }
    }
  }

  lemma InsertExtends<T>(t: Table<T>, typeId: nat, token: Option<T>, hasOut: bool, alloc: bool)
    requires Shape(t.cells, t.free)
    ensures Extends(t, Insert(t, typeId, token, hasOut, alloc).table)
  {
    var r := Insert(t, typeId, token, hasOut, alloc);
    FreeIndex(t);
    if r.status == Ok { SnocTokens(t.log, r.table.log[|t.log|]); }
  }

  lemma {:induction false} StepExtends<T>(t: Table<T>, op: Op<T>)
    requires Inv(t)
    ensures Extends(t, Step(t, op))
    decreases op
  {
    hide Inv, Extends;
    match op
    case OpInsert(typeId, token, hasOut, alloc) =>
      InvShape(t);
      InsertExtends(t, typeId, token, hasOut, alloc);
    case OpRetain(h) => RetainExtends(t, h);
    case OpRelease(h, hook) =>
      var o := Release(t, h);
      ReleaseExtends(t, h);
      if o.fired {
        ReleaseInv(t, h);
        RunExtends(o.table, hook);
        ExtendsTrans(t, o.table, Run(o.table, hook));
      }
    case OpResolve(_, _, _) => ExtendsRefl(t);
    case OpInvalidate(_) =>
      ExtendsRefl(t);
      if !t.invalidated {
        ResetDownExtends(t, |t.cells|);
        SweepExtends(t, ResetDown(t, |t.cells|));
      }
  }

  lemma InvShape<T>(t: Table<T>)
    requires Inv(t)
    ensures Shape(t.cells, t.free)
  {
  }

  lemma RetainExtends<T>(t: Table<T>, h: Handle)
    ensures Extends(t, Retain(t, h).table)
  {
    if Retain(t, h).status == Ok { SnocTokens(t.log, Retained(KeyAt(t, h.slot))); }
  }

  lemma SweepExtends<T>(t: Table<T>, d: Table<T>)
    requires Extends(t, d)
    ensures Extends(t, d.(invalidated := true, free := Iota(|t.cells|)))
  {
  }

  lemma {:induction false} RunExtends<T>(t: Table<T>, script: Script<T>)
    requires Inv(t)
    ensures Extends(t, Run(t, script))
    decreases script
  {
    hide Inv, Extends;
    match script
    case Done => ExtendsRefl(t);
    case Then(op, rest) =>
      StepInv(t, op);
      StepExtends(t, op);
      RunExtends(Step(t, op), rest);
      ExtendsTrans(t, Step(t, op), Run(Step(t, op), rest));
  }

  // The destroy hook, called from a release, finds a fully valid table in which the handle
  // being released is already stale. Whatever it does there, nested hook calls included,
  // when the release returns the table is valid, the key is gone for good, the hook has had
  // its token, and every other issue of every slot is untouched unless it was itself reset.
  lemma ReleaseIsReentrant<T>(t: Table<T>, h: Handle, hook: Script<T>)
    requires Inv(t) && Release(t, h).fired
    ensures var seen := Release(t, h).table;
            && Inv(seen)
            && Retain(seen, h).status == InvalidHandle
            && Release(seen, h).status == InvalidHandle
    ensures var t' := Step(t, OpRelease(h, hook));
            && Inv(t')
            && Extends(t, t')
            && !IsCurrent(t'.cells, KeyAt(t, h.slot))
            && Retirements(t'.log, KeyAt(t, h.slot)) == 1
            && HookCalls(t.log) + [t.cells[h.slot].entry.value.token] <= HookCalls(t'.log)
  {
    hide Inv, Run;
    var o := Release(t, h);
    var key := KeyAt(t, h.slot);
    var t' := Step(t, OpRelease(h, hook));
    ReleaseInv(t, h);
    RunInv(o.table, hook);
    RunExtends(o.table, hook);
    StepExtends(t, OpRelease(h, hook));
    SnocTokens(t.log, Released(key));
    SnocTokens(t.log + [Released(key)], o.table.log[|t.log| + 1]);
    assert CellExtends(o.table.cells[h.slot], t'.cells[h.slot]);
    RetiredOnce(t', key);
    GenerationMoves(t.cells[h.slot].resets);
  }

  lemma RetiredOnce<T>(t: Table<T>, key: Key)
    requires Inv(t) && WasIssued(t.cells, key) && !IsCurrent(t.cells, key)
    ensures Retirements(t.log, key) == 1
  {
  }

  // ----- generations -----

  // The C step on 32-bit generations is one reset further.
  lemma GenerationStep(resets: nat)
    ensures NextGeneration(Generation(resets)) == Generation(resets + 1)
    ensures 1 <= Generation(resets) <= UINT32_MAX
  {
    var q := resets / PERIOD;
    assert resets == q * PERIOD + resets % PERIOD;
    if resets % PERIOD == PERIOD - 1 {
      assert resets + 1 == (q + 1) * PERIOD;
    } else {
      assert resets + 1 == q * PERIOD + (resets % PERIOD + 1);
    }
  }

  lemma GenerationMoves(resets: nat)
    ensures Generation(resets + 1) != Generation(resets)
  {
    GenerationStep(resets);
  }

  // Two reset counts share a generation exactly when they differ by a multiple of PERIOD.
  lemma SameGeneration(c: nat, c': nat)
    requires c <= c'
    ensures Generation(c) == Generation(c') <==> (c' - c) % PERIOD == 0
  {
    var q, q', k := c / PERIOD, c' / PERIOD, (c' - c) / PERIOD;
    assert c == q * PERIOD + c % PERIOD;
    assert c' == q' * PERIOD + c' % PERIOD;
    assert c' - c == k * PERIOD + (c' - c) % PERIOD;
    if c % PERIOD == c' % PERIOD {
      assert c' - c == (q' - q) * PERIOD;
    }
    if (c' - c) % PERIOD == 0 {
      assert c' == (q + k) * PERIOD + c % PERIOD;
    }
  }

  // Exact staleness bound. A handle that was live is accepted later, after any script,
  // exactly when its slot is occupied and was reset a multiple of 2^32 - 1 times since.
  // Within 2^32 - 2 resets it is therefore accepted only while it never went stale, and
  // then still names the token and type it was issued for.
  lemma StalenessBound<T>(t: Table<T>, h: Handle, script: Script<T>)
    requires Inv(t) && Matches(t, h)
    ensures var t' := Run(t, script);
            && h.slot < |t'.cells|
            && var d := t'.cells[h.slot].resets - t.cells[h.slot].resets;
            && d >= 0
            && (Matches(t', h) <==> Occupied(t', h.slot) && d % PERIOD == 0)
            && (Matches(t', h) && d < PERIOD ==>
                  && d == 0
                  && t'.cells[h.slot].entry.value.token == t.cells[h.slot].entry.value.token
                  && t'.cells[h.slot].entry.value.typeId == t.cells[h.slot].entry.value.typeId)
  {
    var t' := Run(t, script);
    hide Inv, Run;
    RunExtends(t, script);
    assert CellExtends(t.cells[h.slot], t'.cells[h.slot]);
    SameGeneration(t.cells[h.slot].resets, t'.cells[h.slot].resets);
    GenerationStep(t.cells[h.slot].resets);
  }

  // ----- what later calls can make of a table -----

  ghost predicate Evolves<T(!new)>(t: Table<T>, t': Table<T>) {
    exists script: Script<T> :: Run(t, script) == t'
  }

  function Concat<T>(x: Script<T>, y: Script<T>): Script<T> {
    match x
    case Done => y
    case Then(op, rest) => Then(op, Concat(rest, y))
  }

  lemma {:induction false} RunConcat<T>(t: Table<T>, x: Script<T>, y: Script<T>)
    ensures Run(t, Concat(x, y)) == Run(Run(t, x), y)
    decreases x
  {
    match x
    case Done =>
    case Then(op, rest) =>
      hide Step;
      RunConcat(Step(t, op), rest, y);
  }

  lemma EvolvesRefl<T(!new)>(t: Table<T>)
    ensures Evolves(t, t)
  {
    assert Run(t, Done) == t;
  }

  lemma EvolvesStep<T(!new)>(t: Table<T>, op: Op<T>)
    ensures Evolves(t, Step(t, op))
  {
    assert Run(Step(t, op), Done) == Step(t, op);
    assert Run(t, Then(op, Done)) == Step(t, op);
  }

  lemma EvolvesTrans<T(!new)>(t: Table<T>, u: Table<T>, v: Table<T>)
    requires Evolves(t, u) && Evolves(u, v)
    ensures Evolves(t, v)
  {
    var x: Script<T> :| Run(t, x) == u;
    var y: Script<T> :| Run(u, y) == v;
    hide Run;
    RunConcat(t, x, y);
    assert Run(t, Concat(x, y)) == v;
  }

  lemma LastReleaseResets<T>(t: Table<T>, h: Handle)
    requires !t.invalidated && Matches(t, h) && t.cells[h.slot].entry.value.references == 1
    ensures |Release(t, h).table.cells| == |t.cells|
    ensures Release(t, h).table.cells[h.slot].resets == t.cells[h.slot].resets + 1
  {
  }

  // A handle whose last reference was released stays refused while its slot is reset fewer
  // than 2^32 - 1 times, that release included.
  lemma StaleAfterLastRelease<T(!new)>(t: Table<T>, h: Handle, t': Table<T>)
    requires Inv(t) && !t.invalidated && Matches(t, h) && t.cells[h.slot].entry.value.references == 1
    requires Evolves(Release(t, h).table, t')
    ensures h.slot < |t'.cells| && t'.cells[h.slot].resets > t.cells[h.slot].resets
    ensures t'.cells[h.slot].resets - t.cells[h.slot].resets < PERIOD ==> !Matches(t', h)
  {
    hide Inv, Run, Release, Generation;
    var u := Release(t, h).table;
    LastReleaseResets(t, h);
    var script: Script<T> :| Run(u, script) == t';
    ReleaseInv(t, h);
    RunExtends(u, script);
    assert CellExtends(u.cells[h.slot], t'.cells[h.slot]);
    SameGeneration(t.cells[h.slot].resets, t'.cells[h.slot].resets);
  }

  // ----- fresh issues -----

  // No pair of slot and generation is issued twice within that window: inserting returns a
  // handle whose key is new to the log, and every earlier issue of the same handle lies a
  // positive multiple of 2^32 - 1 resets back.
  lemma IssuesAreFresh<T>(t: Table<T>, typeId: nat, token: Option<T>, hasOut: bool, alloc: bool, earlier: Key)
    requires Inv(t) && Insert(t, typeId, token, hasOut, alloc).status == Ok
    requires Issues(t.log, earlier) > 0
    ensures var r := Insert(t, typeId, token, hasOut, alloc);
            && r.handle.slot < |r.table.cells|
            && var key := KeyAt(r.table, r.handle.slot);
            && r.handle.generation != 0
            && Issues(t.log, key) == 0
            && Issues(r.table.log, key) == 1
            && (Handle(earlier.slot, Generation(earlier.resets)) == r.handle ==>
                  key.resets - earlier.resets >= PERIOD && (key.resets - earlier.resets) % PERIOD == 0)
  {
    hide Shape, Settled, Conserved, HighWater;
    var r := Insert(t, typeId, token, hasOut, alloc);
    FreeIndex(t);
    var key := KeyAt(r.table, r.handle.slot);
    GenerationStep(key.resets);
    Snoc(t.log, Issued(key, token.value));
    assert WasIssued(t.cells, earlier);
    if earlier.slot == key.slot {
      SameGeneration(earlier.resets, key.resets);
    }
  }

  // ----- the bound is tight: a handle does come back -----

  // n rounds of releasing the only handle and inserting `token` in its place.
  function Churn<T>(resets: nat, n: nat, token: T): Script<T>
    decreases n
  {
    if n == 0 then Done
    else
      Then(OpRelease(Handle(0, Generation(resets)), Done),
      Then(OpInsert(1, Some(token), true, true),
      Churn(resets + 1, n - 1, token)))
  }

  ghost predicate OnlySlot<T>(t: Table<T>, resets: nat, token: T) {
    && t.cells == [Cell(resets, Some(Entry(token, 1, 1)))]
    && t.free == []
    && !t.invalidated
  }

  lemma {:induction false} ChurnAdvances<T>(t: Table<T>, resets: nat, n: nat, x: T, token: T)
    requires OnlySlot(t, resets, x)
    ensures OnlySlot(Run(t, Churn(resets, n, token)), resets + n, if n == 0 then x else token)
    decreases n
  {
    if n == 0 {
    } else {
      GenerationStep(resets);
      var o := Release(t, Handle(0, Generation(resets)));
      assert o.table.cells == [Cell(resets + 1, None)] && o.table.free == [0];
      var r := Insert(o.table, 1, Some(token), true, true);
      assert OnlySlot(r.table, resets + 1, token);
      var rest := Churn(resets + 1, n - 1, token);
      assert Run(o.table, Done) == o.table;
      assert Step(t, OpRelease(Handle(0, Generation(resets)), Done)) == o.table;
      assert Run(t, Churn(resets, n, token)) == Run(o.table, Then(OpInsert(1, Some(token), true, true), rest));
      assert Run(o.table, Then(OpInsert(1, Some(token), true, true), rest)) == Run(r.table, rest);
      ChurnAdvances(r.table, resets + 1, n - 1, token, token);
    }
  }

  // After exactly 2^32 - 1 resets the very first handle resolves again, to another token.
  lemma StaleHandleReturns<T>(x: T, y: T, hooked: bool)
    ensures var first := Insert(Empty(hooked), 1, Some(x), true, true);
            var t' := Run(first.table, Churn(0, PERIOD, y));
            && first.status == Ok
            && |t'.cells| == 1 && t'.cells[0].resets == PERIOD
            && Resolve(t', None, first.handle, 0, true) == Resolved(Ok, Some(Entry(y, 1, 1)))
  {
    var first := Insert(Empty(hooked), 1, Some(x), true, true);
    assert CapacityFor(0) == 0;
    assert OnlySlot(first.table, 0, x);
    ChurnAdvances(first.table, 0, PERIOD, x, y);
    SameGeneration(0, PERIOD);
  }

  // ----- ownership of tokens -----

  // The tokens a run accepted are the live ones plus the ones handed to the hook, each as
  // often as it was accepted. Invalidation and destruction hand over all that is left;
  // destroying an invalidated table hands over nothing more.
  lemma Conservation<T>(script: Script<T>)
    ensures var t := Run(Empty<T>(true), script);
            && Taken(t.log) == LiveTokens(t.cells) + multiset(HookCalls(t.log))
            && (t.invalidated ==> Taken(t.log) == multiset(HookCalls(t.log)))
            && Taken(Destroy(t).log) == multiset(HookCalls(Destroy(t).log))
            && Taken(Destroy(t).log) == Taken(t.log)
            && Destroy(Invalidate(t)).log == Invalidate(t).log
  {
    var t := Run(Empty<T>(true), script);
    EmptyInv<T>(true);
    RunInv(Empty(true), script);
    RunExtends(Empty(true), script);
    hide Run, Inv;
    CoreConserves(t);
    ResetUpCore(t, 0);
    CoreConserves(ResetUp(t, 0));
    ResetUpTakes(t, 0);
    InvalidateInv(t);
    InvalidatedIsEmpty(Invalidate(t));
    ResetUpNothing(Invalidate(t), 0);
  }

  lemma CoreConserves<T>(t: Table<T>)
    requires Core(t) && t.hooked
    ensures Taken(t.log) == LiveTokens(t.cells) + multiset(HookCalls(t.log))
    ensures (forall i :: 0 <= i < |t.cells| ==> t.cells[i].entry.None?) ==>
              Taken(t.log) == multiset(HookCalls(t.log))
  {
    hide Shape, Ledger, HighWater;
    if forall i :: 0 <= i < |t.cells| ==> t.cells[i].entry.None? {
      NothingLive(t.cells);
      assert multiset{} + multiset(HookCalls(t.log)) == multiset(HookCalls(t.log));
    }
  }

  lemma InvalidatedIsEmpty<T>(t: Table<T>)
    requires Inv(t) && t.invalidated
    ensures forall i :: 0 <= i < |t.cells| ==> t.cells[i].entry.None?
  {
  }

  lemma {:induction false} ResetUpTakes<T>(t: Table<T>, i: nat)
    requires i <= |t.cells|
    ensures Taken(ResetUp(t, i).log) == Taken(t.log)
    decreases |t.cells| - i
  {
    if i == |t.cells| {
    } else {
      if Occupied(t, i) { SnocTokens(t.log, Reset(t, i).log[|t.log|]); }
      ResetUpTakes(if Occupied(t, i) then Reset(t, i) else t, i + 1);
    }
  }

  lemma {:induction false} ResetUpNothing<T>(t: Table<T>, i: nat)
    requires i <= |t.cells| && forall j :: 0 <= j < |t.cells| ==> t.cells[j].entry.None?
    ensures ResetUp(t, i) == t
    decreases |t.cells| - i
  {
    if i == |t.cells| {
    } else {
      ResetUpNothing(t, i + 1);
    }
  }

  // Until invalidation a key is retired exactly when it was issued and its successful
  // inserts and retains are all released again; while it is not, the balance is positive.
  // Nothing is retired twice, and an invalidated table has retired everything.
  lemma RetiredExactlyAtZero<T>(hooked: bool, script: Script<T>, key: Key)
    ensures var t := Run(Empty<T>(hooked), script);
            && Retirements(t.log, key) <= Issues(t.log, key) <= 1
            && (!t.invalidated && Issues(t.log, key) == 1 ==>
                  && Balance(t.log, key) >= 0
                  && (Retirements(t.log, key) == 1 <==> Balance(t.log, key) == 0))
            && (t.invalidated ==> Retirements(t.log, key) == Issues(t.log, key))
  {
    var t := Run(Empty<T>(hooked), script);
    EmptyInv<T>(hooked);
    RunInv(Empty(hooked), script);
    hide Shape, Conserved, HighWater, Run;
  }

  // ----- growth -----

  function Pow2(k: nat): (p: nat)
    ensures p > 0
  {
    if k == 0 then 1 else 2 * Pow2(k - 1)
  }

  lemma {:induction false} Pow2Double(j: nat, k: nat)
    ensures Pow2(j + k) == Pow2(j) * Pow2(k)
  {
    if k == 0 {
    } else {
      Pow2Double(j, k - 1);
    }
  }

  lemma {:induction false} Pow2Grows(j: nat, k: nat)
    requires j <= k
    ensures Pow2(j) <= Pow2(k)
    decreases k
  {
    if j == k {
    } else {
      Pow2Grows(j, k - 1);
    }
  }

  lemma Pow2At28()
    ensures Pow2(28) == 0x1000_0000 && Pow2(29) == 0x2000_0000
  {
    assert Pow2(8) == 256;
    Pow2Double(8, 8);
    Pow2Double(16, 8);
    Pow2Double(24, 4);
  }

  // The capacity is 0 or 16 * 2^k with k <= 28, and at most twice the high-water mark
  // once it exceeds 16.
  lemma CapacityShape(n: nat) returns (k: nat)
    requires 0 < n <= UINT32_MAX
    ensures CapacityFor(n) == 16 * Pow2(k) && k <= 28
    ensures n <= CapacityFor(n) <= UINT32_MAX + 1
    ensures k > 0 ==> CapacityFor(n) < 2 * n
  {
    k := CapacityDoubles(n);
    Pow2At28();
    if k > 28 { Pow2Grows(29, k); } else { Pow2Grows(k, 28); }
  }

  lemma {:induction false} CapacityDoubles(n: nat) returns (k: nat)
    requires n > 0
    ensures CapacityFor(n) == 16 * Pow2(k)
    ensures n <= CapacityFor(n)
    ensures k > 0 ==> CapacityFor(n) < 2 * n
  {
    if n == 1 {
      assert CapacityFor(0) == 0;
      k := 0;
    } else {
      k := CapacityDoubles(n - 1);
      if n - 1 == CapacityFor(n - 1) { k := k + 1; }
    }
  }

  // With a 64-bit size_t the clamping arithmetic of the C code always yields the doubling,
  // so the capacity is a function of the high-water mark and stays within 2^32 slots.
  lemma GrowthIsDoubling(n: nat)
    requires n < UINT32_MAX
    ensures n <= CapacityFor(n)
    ensures CapacityFor(n) == n ==> GrownCapacity(n, SIZE_MODULUS_64) == Some(CapacityFor(n + 1))
    ensures CapacityFor(n) > n ==> CapacityFor(n + 1) == CapacityFor(n)
    ensures n + 1 <= CapacityFor(n + 1) <= UINT32_MAX + 1
  {
    hide GrownCapacity, Pow2;
    assert CapacityFor(0) == 0;
    var k' := CapacityShape(n + 1);
    if n > 0 { var k := CapacityShape(n); }
    if CapacityFor(n) == n { GrownDoubles(n); }
  }

  lemma GrowthIsDoublingUpTo(n: nat)
    requires n <= UINT32_MAX
    ensures n <= CapacityFor(n)
    ensures n < CapacityFor(n) ==> CapacityFor(n + 1) == CapacityFor(n)
  {
    if n < UINT32_MAX { GrowthIsDoubling(n); } else { var k := CapacityShape(n); }
  }

  lemma GrownDoubles(capacity: nat)
    requires capacity == 0 || (16 <= capacity && 2 * capacity <= UINT32_MAX + 1)
    ensures GrownCapacity(capacity, SIZE_MODULUS_64) == Some(if capacity == 0 then 16 else 2 * capacity)
  {
    assert capacity * 2 % SIZE_MODULUS_64 == capacity * 2;
  }

  // With a size_t of 32 bits or fewer the same arithmetic wraps to a limit of 0 and refuses
  // to grow at all; growing an empty table works exactly when size_t is wider than that.
  lemma GrowthNeedsWideSize(bits: nat)
    ensures GrownCapacity(0, Pow2(bits)).Some? <==> bits > 32
    ensures bits <= 32 ==> forall capacity :: 0 <= capacity < Pow2(bits) ==> GrownCapacity(capacity, Pow2(bits)).None?
  {
    hide GrownCapacity;
    Pow2At32();
    if bits <= 32 {
      Pow2Double(bits, 32 - bits);
      NarrowSize(Pow2(bits), Pow2(32 - bits));
    } else {
      Pow2Grows(33, bits);
      WideSize(Pow2(bits));
    }
  }

  lemma WideSize(modulus: nat)
    requires modulus >= 2 * (UINT32_MAX + 1)
    ensures GrownCapacity(0, modulus).Some?
  {
    Small(UINT32_MAX, modulus);
    Small(UINT32_MAX + 1, modulus);
    Small(16, modulus);
  }

  lemma Small(x: nat, m: nat)
    requires x < m
    ensures x % m == x
  {
  }

  lemma NarrowSize(modulus: nat, q: nat)
    requires modulus > 0 && q > 0 && UINT32_MAX + 1 == modulus * q
    ensures forall capacity :: 0 <= capacity < modulus ==> GrownCapacity(capacity, modulus).None?
    ensures GrownCapacity(0, modulus).None?
  {
    assert UINT32_MAX == modulus * (q - 1) + (modulus - 1) by {
      assert modulus * q == modulus * (q - 1) + modulus;
    }
    LastRemainder(modulus, q - 1);
    assert UINT32_MAX % modulus == modulus - 1;
    Itself(modulus);
    forall capacity | 0 <= capacity < modulus ensures GrownCapacity(capacity, modulus).None? {
      NoLimit(capacity, modulus);
    }
  }

  lemma Itself(m: nat)
    requires m > 0
    ensures m % m == 0
  {
    var q := m / m;
    assert m == m * q + m % m;
  }

  lemma NoLimit(capacity: nat, modulus: nat)
    requires capacity < modulus && (UINT32_MAX % modulus + 1) % modulus == 0
    ensures GrownCapacity(capacity, modulus).None?
  {
  }

  lemma Pow2At32()
    ensures Pow2(32) == UINT32_MAX + 1 && Pow2(33) == 2 * (UINT32_MAX + 1)
  {
    Pow2At28();
    Pow2Double(28, 4);
    assert Pow2(4) == 16;
  }

  lemma LastRemainder(m: nat, q: nat)
    requires m > 0
    ensures (m * q + (m - 1)) % m == m - 1
  {
    var x := m * q + (m - 1);
    assert x == m * (x / m) + x % m;
    assert x / m == q by {
      assert m * (x / m) <= x < m * (x / m) + m;
      LessFactor(m, q, x / m);
    }
  }

  // Two multiples of m less than m away from the same number are the same.
  lemma LessFactor(m: nat, p: nat, q: nat)
    requires m > 0 && m * p < m * q + m && m * q < m * p + m
    ensures p == q
  {
    assert m * p < m * (q + 1) && m * q < m * (p + 1);
  }

  // The slot count is the largest number of handles that were ever live at once, the free
  // stack holds the rest, and inserting runs out of memory in two cases only: every index
  // but the sentinel is live, or the table is full to capacity and realloc fails.
  lemma HighWaterMark<T>(hooked: bool, script: Script<T>, typeId: nat, token: Option<T>, alloc: bool)
    requires typeId != 0 && token.Some?
    ensures var t := Run(Empty<T>(hooked), script);
            && |t.cells| == Peak(t.log) <= UINT32_MAX
            && |t.cells| <= CapacityFor(|t.cells|) <= UINT32_MAX + 1
            && LiveCount(t.cells) == LiveAfter(t.log) == |t.cells| - |t.free|
            && (!t.invalidated ==>
                  (Insert(t, typeId, token, true, alloc).status == OutOfMemory <==>
                    var live := LiveCount(t.cells);
                    live == Peak(t.log) && (live == UINT32_MAX || (live == CapacityFor(live) && !alloc))))
            && Insert(t, typeId, token, true, alloc).handle.slot < UINT32_MAX
  {
    EmptyInv<T>(hooked);
    RunInv(Empty(hooked), script);
    ExhaustionWhenFull(Run(Empty<T>(hooked), script), typeId, token, alloc);
  }

  lemma ExhaustionWhenFull<T>(t: Table<T>, typeId: nat, token: Option<T>, alloc: bool)
    requires Inv(t) && typeId != 0 && token.Some?
    ensures |t.cells| == Peak(t.log) <= UINT32_MAX
    ensures |t.cells| <= CapacityFor(|t.cells|) <= UINT32_MAX + 1
    ensures LiveCount(t.cells) == LiveAfter(t.log) == |t.cells| - |t.free|
    ensures !t.invalidated ==>
              (Insert(t, typeId, token, true, alloc).status == OutOfMemory <==>
                var live := LiveCount(t.cells);
                live == Peak(t.log) && (live == UINT32_MAX || (live == CapacityFor(live) && !alloc)))
    ensures Insert(t, typeId, token, true, alloc).handle.slot < UINT32_MAX
  {
    hide Ledger, Settled, Conserved, Swept;
    if t.cells == [] {
      assert CapacityFor(0) == 0;
    } else {
      var k := CapacityShape(|t.cells|);
    }
    hide CapacityFor, LiveCount, LiveAfter, Peak;
  }
}
