/** The representation invariant of the handle table and its preservation by every
    operation and every script of operations, nested hook calls included. */
module TableInvariant {
  import opened Abi
  import opened TableSpec

  // The free stack lists exactly the unoccupied indices, each once.
  ghost predicate Shape<T>(cells: seq<Cell<T>>, free: seq<nat>) {
    && |cells| <= UINT32_MAX
    && (forall k :: 0 <= k < |free| ==> free[k] < |cells| && cells[free[k]].entry.None?)
    && (forall j, k :: 0 <= j < k < |free| ==> free[j] != free[k])
    && (forall i :: 0 <= i < |cells| && cells[i].entry.None? ==> i in free)
    && (forall i :: 0 <= i < |cells| && cells[i].entry.Some? ==> cells[i].entry.value.typeId != 0)
  }

  // An invalidated table holds nothing and its free stack is 0, 1, ..., n-1.
  ghost predicate Swept<T>(t: Table<T>) {
    t.invalidated ==>
      && t.free == Iota(|t.cells|)
      && forall i :: 0 <= i < |t.cells| ==> t.cells[i].entry.None?
  }

  // Key was issued: its slot has since been reset past it, or holds it now.
  predicate WasIssued<T>(cells: seq<Cell<T>>, key: Key) {
    && key.slot < |cells|
    && (key.resets < cells[key.slot].resets || IsCurrent(cells, key))
  }

  predicate IsCurrent<T>(cells: seq<Cell<T>>, key: Key) {
    key.slot < |cells| && key.resets == cells[key.slot].resets && cells[key.slot].entry.Some?
  }

  // The log agrees with the cells: a key is issued at most once, retired exactly when it
  // is no longer current, and while it is current its balance is the reference count.
  ghost predicate Ledger<T>(cells: seq<Cell<T>>, log: seq<Event<T>>) {
    && (forall key :: Issues(log, key) == if WasIssued(cells, key) then 1 else 0)
    && (forall key :: Retirements(log, key) ==
          if WasIssued(cells, key) && !IsCurrent(cells, key) then 1 else 0)
    && (forall key :: IsCurrent(cells, key) ==>
          Balance(log, key) == cells[key.slot].entry.value.references)
  }

  // Nothing that is not current holds a reference. True until invalidation, which is the
  // one way to lose a key that still has references.
  ghost predicate Settled<T>(cells: seq<Cell<T>>, log: seq<Event<T>>) {
    forall key :: !IsCurrent(cells, key) ==> Balance(log, key) == 0
  }

  // Every accepted token is still live or went to the hook; none went there twice.
  ghost predicate Conserved<T>(cells: seq<Cell<T>>, log: seq<Event<T>>, hooked: bool) {
    && (hooked ==> Taken(log) == LiveTokens(cells) + multiset(HookCalls(log)))
    && (!hooked ==> HookCalls(log) == [])
  }

  // The slot count is the high-water mark of simultaneously live handles.
  ghost predicate HighWater<T>(cells: seq<Cell<T>>, free: seq<nat>, log: seq<Event<T>>) {
    && LiveCount(cells) + |free| == |cells|
    && LiveAfter(log) == LiveCount(cells)
    && Peak(log) == |cells|
  }

  // What a reset keeps, whatever the reference count.
  ghost predicate Core<T>(t: Table<T>) {
    && Shape(t.cells, t.free)
    && Ledger(t.cells, t.log)
    && Conserved(t.cells, t.log, t.hooked)
    && HighWater(t.cells, t.free, t.log)
  }

  ghost predicate Inv<T>(t: Table<T>) {
    && Core(t)
    && Swept(t)
    && (t.invalidated || Settled(t.cells, t.log))
  }

  // ----- the log and the cell sums, one step at a time -----

  lemma Snoc<T>(log: seq<Event<T>>, e: Event<T>)
    ensures forall key :: Issues(log + [e], key) ==
              Issues(log, key) + if e.Issued? && e.key == key then 1 else 0
    ensures forall key :: Retirements(log + [e], key) ==
              Retirements(log, key) + if e.Retired? && e.key == key then 1 else 0
    ensures forall key :: Balance(log + [e], key) ==
              Balance(log, key) + if e.key != key || e.Retired? then 0 else if e.Released? then -1 else 1
  {
    assert (log + [e])[..|log|] == log;
  }

  lemma SnocTokens<T>(log: seq<Event<T>>, e: Event<T>)
    ensures Taken(log + [e]) == Taken(log) + if e.Issued? then multiset{e.token} else multiset{}
    ensures HookCalls(log + [e]) == HookCalls(log) + if e.Retired? && e.hookCalled then [e.token] else []
  {
    assert (log + [e])[..|log|] == log;
  }

  lemma SnocCounts<T>(log: seq<Event<T>>, e: Event<T>)
    ensures LiveAfter(log + [e]) == LiveAfter(log) + if e.Issued? then 1 else if e.Retired? then -1 else 0
    ensures Peak(log + [e]) == if LiveAfter(log + [e]) > Peak(log) then LiveAfter(log + [e]) else Peak(log)
  {
    assert (log + [e])[..|log|] == log;
  }

  function Weight<T>(c: Cell<T>): nat { if c.entry.Some? then 1 else 0 }

  function TokenOf<T>(c: Cell<T>): multiset<T> {
    if c.entry.Some? then multiset{c.entry.value.token} else multiset{}
  }

  function At<T>(cells: seq<Cell<T>>, i: nat): Cell<T> {
    if i < |cells| then cells[i] else Cell(0, None)
  }

  // Putting c at i exchanges the old cell's contribution for c's.
  lemma {:induction false} PutCount<T>(cells: seq<Cell<T>>, i: nat, c: Cell<T>)
    requires i <= |cells|
    ensures LiveCount(Put(cells, i, c)) + Weight(At(cells, i)) == LiveCount(cells) + Weight(c)
  {
    var n := |cells| - 1;
    if i == |cells| {
      assert Put(cells, i, c)[..|cells|] == cells;
    } else if i == n {
      assert cells[i := c][..n] == cells[..n];
    } else {
      PutCount(cells[..n], i, c);
      assert Put(cells, i, c)[..n] == Put(cells[..n], i, c);
    }
  }

  lemma {:induction false} PutTokens<T>(cells: seq<Cell<T>>, i: nat, c: Cell<T>)
    requires i <= |cells|
    ensures LiveTokens(Put(cells, i, c)) + TokenOf(At(cells, i)) == LiveTokens(cells) + TokenOf(c)
  {
    var n := |cells| - 1;
    if i == |cells| {
      assert Put(cells, i, c)[..|cells|] == cells;
    } else {
      UnfoldTokens(cells);
      UnfoldTokens(Put(cells, i, c));
      hide LiveTokens, TokenOf;
      if i == n {
        assert cells[i := c][..n] == cells[..n];
        Exchange(LiveTokens(cells[..n]), TokenOf(c), TokenOf(cells[n]));
      } else {
        PutTokens(cells[..n], i, c);
        assert Put(cells, i, c)[..n] == Put(cells[..n], i, c);
        assert cells[..n][i] == cells[i];
        AddBoth(LiveTokens(Put(cells[..n], i, c)), TokenOf(cells[i]),
                LiveTokens(cells[..n]), TokenOf(c), TokenOf(cells[n]));
      }
    }
  }

  lemma UnfoldTokens<T>(cells: seq<Cell<T>>)
    requires cells != []
    ensures LiveTokens(cells) == LiveTokens(cells[..|cells| - 1]) + TokenOf(cells[|cells| - 1])
  {
  }

  lemma CancelSummand<T>(a: multiset<T>, b: multiset<T>, x: multiset<T>)
    requires a + x == b + x
    ensures a == b
  {
    assert forall e :: a[e] + x[e] == (a + x)[e] && b[e] + x[e] == (b + x)[e];
  }

  lemma AddBoth<T>(a: multiset<T>, x: multiset<T>, b: multiset<T>, y: multiset<T>, z: multiset<T>)
    requires a + x == b + y
    ensures a + z + x == b + z + y
  {
    Exchange(a, z, x);
    Exchange(b, z, y);
  }

  lemma Exchange<T>(a: multiset<T>, x: multiset<T>, y: multiset<T>)
    ensures a + x + y == a + y + x
  {
  }

  lemma {:induction false} FullWhenNothingFree<T>(cells: seq<Cell<T>>)
    requires forall i :: 0 <= i < |cells| ==> cells[i].entry.Some?
    ensures LiveCount(cells) == |cells|
  {
    if cells == [] {
    } else {
      FullWhenNothingFree(cells[..|cells| - 1]);
    }
  }

  lemma {:induction false} NothingLive<T>(cells: seq<Cell<T>>)
    requires forall i :: 0 <= i < |cells| ==> cells[i].entry.None?
    ensures LiveCount(cells) == 0 && LiveTokens(cells) == multiset{}
  {
    if cells == [] {
    } else {
      NothingLive(cells[..|cells| - 1]);
    }
  }

  // ----- inserting -----

  lemma ShapePush<T>(cells: seq<Cell<T>>, free: seq<nat>, i: nat, c: Cell<T>)
    requires Shape(cells, free) && c.entry.Some? && c.entry.value.typeId != 0
    requires if free != [] then i == free[0] else i == |cells| < UINT32_MAX
    ensures Shape(Put(cells, i, c), if free != [] then free[1..] else [])
  {
    var cells', free' := Put(cells, i, c), if free != [] then free[1..] else [];
    forall j | 0 <= j < |cells'| && cells'[j].entry.None? ensures j in free' {
      assert cells[j] == cells'[j] && j in free;
      var k :| 0 <= k < |free| && free[k] == j;
      assert free'[k - 1] == j;
    }
    if free != [] {
      assert forall k :: 0 <= k < |free'| ==> free'[k] == free[k + 1];
    }
  }

  lemma LedgerIssue<T>(cells: seq<Cell<T>>, log: seq<Event<T>>, i: nat, e: Entry<T>)
    requires Ledger(cells, log) && Settled(cells, log)
    requires i <= |cells| && At(cells, i).entry.None? && e.references == 1
    ensures var c := At(cells, i).resets;
            var cells', log' := Put(cells, i, Cell(c, Some(e))), log + [Issued(Key(i, c), e.token)];
            Ledger(cells', log') && Settled(cells', log')
  {
    Snoc(log, Issued(Key(i, At(cells, i).resets), e.token));
  }

  lemma ConservedIssue<T>(cells: seq<Cell<T>>, log: seq<Event<T>>, hooked: bool, i: nat, e: Entry<T>)
    requires Conserved(cells, log, hooked) && i <= |cells| && At(cells, i).entry.None?
    ensures var c := At(cells, i).resets;
            Conserved(Put(cells, i, Cell(c, Some(e))), log + [Issued(Key(i, c), e.token)], hooked)
  {
    var c := At(cells, i).resets;
    var cells' := Put(cells, i, Cell(c, Some(e)));
    hide LiveTokens, Taken, HookCalls, Put;
    SnocTokens(log, Issued(Key(i, c), e.token));
    PutTokens(cells, i, Cell(c, Some(e)));
    if hooked {
      TakeOver(Taken(log), LiveTokens(cells), LiveTokens(cells'), HookCalls(log), e.token);
    }
  }

  // A token entering the table raises the total by itself.
  lemma TakeOver<T>(taken: multiset<T>, live: multiset<T>, live': multiset<T>, calls: seq<T>, token: T)
    requires taken == live + multiset(calls)
    requires live' + multiset{} == live + multiset{token}
    ensures taken + multiset{token} == live' + multiset(calls + [])
  {
    assert calls + [] == calls;
    assert live' == live' + multiset{} == live + multiset{token};
    Exchange(live, multiset{token}, multiset(calls));
  }

  lemma HighWaterIssue<T>(cells: seq<Cell<T>>, free: seq<nat>, log: seq<Event<T>>, i: nat, e: Entry<T>)
    requires HighWater(cells, free, log) && At(cells, i).entry.None?
    requires if free != [] then i < |cells| else i == |cells|
    ensures var c := At(cells, i).resets;
            HighWater(Put(cells, i, Cell(c, Some(e))), if free != [] then free[1..] else [],
                      log + [Issued(Key(i, c), e.token)])
  {
    var c := At(cells, i).resets;
    hide LiveCount, LiveAfter, Peak;
    SnocCounts(log, Issued(Key(i, c), e.token));
    PutCount(cells, i, Cell(c, Some(e)));
  }

  lemma InsertInv<T>(t: Table<T>, typeId: nat, token: Option<T>, hasOut: bool, alloc: bool)
    requires Inv(t)
    ensures Inv(Insert(t, typeId, token, hasOut, alloc).table)
  {
    hide Shape, Ledger, Settled, Conserved, HighWater;
    if Insert(t, typeId, token, hasOut, alloc).status == Ok {
      var i := NextIndex(t);
      var e := Entry(token.value, typeId, 1);
      FreeIndex(t);
      ShapePush(t.cells, t.free, i, Cell(At(t.cells, i).resets, Some(e)));
      LedgerIssue(t.cells, t.log, i, e);
      ConservedIssue(t.cells, t.log, t.hooked, i, e);
      HighWaterIssue(t.cells, t.free, t.log, i, e);
    }
  }

  lemma FreeIndex<T>(t: Table<T>)
    requires Shape(t.cells, t.free)
    ensures NextIndex(t) <= |t.cells| && At(t.cells, NextIndex(t)).entry.None?
    ensures t.free != [] ==> NextIndex(t) < |t.cells|
  {
  }

  // ----- counting references -----

  function Recounted<T>(c: Cell<T>, references: RefCount): Cell<T>
    requires c.entry.Some?
  {
    c.(entry := Some(c.entry.value.(references := references)))
  }

  lemma LedgerRecount<T>(cells: seq<Cell<T>>, log: seq<Event<T>>, i: nat, references: RefCount, event: Event<T>)
    requires Ledger(cells, log) && Settled(cells, log) && i < |cells| && cells[i].entry.Some?
    requires event == Retained(Key(i, cells[i].resets)) || event == Released(Key(i, cells[i].resets))
    requires references == cells[i].entry.value.references + if event.Retained? then 1 else -1
    ensures Ledger(cells[i := Recounted(cells[i], references)], log + [event])
    ensures Settled(cells[i := Recounted(cells[i], references)], log + [event])
  {
    Snoc(log, event);
  }

  lemma ConservedRecount<T>(cells: seq<Cell<T>>, log: seq<Event<T>>, hooked: bool, i: nat, references: RefCount,
                            event: Event<T>)
    requires Conserved(cells, log, hooked) && i < |cells| && cells[i].entry.Some?
    requires event.Retained? || event.Released?
    ensures Conserved(cells[i := Recounted(cells[i], references)], log + [event], hooked)
  {
    var cells' := cells[i := Recounted(cells[i], references)];
    SnocTokens(log, event);
    PutTokens(cells, i, cells'[i]);
    CancelSummand(LiveTokens(cells'), LiveTokens(cells), TokenOf(cells[i]));
  }

  lemma HighWaterRecount<T>(cells: seq<Cell<T>>, free: seq<nat>, log: seq<Event<T>>, i: nat, references: RefCount,
                            event: Event<T>)
    requires HighWater(cells, free, log) && i < |cells| && cells[i].entry.Some?
    requires event.Retained? || event.Released?
    ensures HighWater(cells[i := Recounted(cells[i], references)], free, log + [event])
  {
    SnocCounts(log, event);
    PutCount(cells, i, Recounted(cells[i], references));
    PeakBounds(log);
  }

  // Changing the reference count of an occupied cell, with the matching log entry.
  lemma Recount<T>(t: Table<T>, i: nat, references: RefCount, event: Event<T>)
    requires Core(t) && Settled(t.cells, t.log) && Occupied(t, i)
    requires event == Retained(KeyAt(t, i)) || event == Released(KeyAt(t, i))
    requires references == t.cells[i].entry.value.references + if event.Retained? then 1 else -1
    ensures var t' := t.(cells := t.cells[i := Recounted(t.cells[i], references)], log := t.log + [event]);
            Core(t') && Settled(t'.cells, t'.log)
  {
    hide Ledger, Settled, Conserved, HighWater;
    LedgerRecount(t.cells, t.log, i, references, event);
    ConservedRecount(t.cells, t.log, t.hooked, i, references, event);
    HighWaterRecount(t.cells, t.free, t.log, i, references, event);
  }

  lemma PeakBounds<T>(log: seq<Event<T>>)
    ensures Peak(log) >= 0 && Peak(log) >= LiveAfter(log)
  {
  }

  lemma RetainInv<T>(t: Table<T>, h: Handle)
    requires Inv(t)
    ensures Inv(Retain(t, h).table)
  {
    hide Core, Settled;
    if Retain(t, h).status == Ok {
      Recount(t, h.slot, t.cells[h.slot].entry.value.references + 1, Retained(KeyAt(t, h.slot)));
    }
  }

  // ----- resetting -----

  lemma ShapePop<T>(cells: seq<Cell<T>>, free: seq<nat>, i: nat, resets: nat)
    requires Shape(cells, free) && i < |cells| && cells[i].entry.Some?
    ensures Shape(cells[i := Cell(resets, None)], [i] + free)
  {
    var cells', free' := cells[i := Cell(resets, None)], [i] + free;
    forall j | 0 <= j < |cells'| && cells'[j].entry.None? ensures j in free' {
      if j == i { assert free'[0] == i; } else { assert j in free; }
    }
    assert i !in free;
  }

  lemma TokensRetire<T>(cells: seq<Cell<T>>, i: nat)
    requires i < |cells| && cells[i].entry.Some?
    ensures LiveTokens(cells[i := Cell(cells[i].resets + 1, None)]) + multiset{cells[i].entry.value.token} ==
            LiveTokens(cells) + multiset{}
  {
    hide LiveTokens;
    PutTokens(cells, i, Cell(cells[i].resets + 1, None));
  }

  lemma ConservedRetire<T>(cells: seq<Cell<T>>, log: seq<Event<T>>, hooked: bool, i: nat)
    requires i < |cells| && cells[i].entry.Some? && Conserved(cells, log, hooked)
    ensures var c := cells[i];
            Conserved(cells[i := Cell(c.resets + 1, None)],
                      log + [Retired(Key(i, c.resets), c.entry.value.token, hooked)], hooked)
  {
    var c := cells[i];
    SnocTokens(log, Retired(Key(i, c.resets), c.entry.value.token, hooked));
    var cells' := cells[i := Cell(c.resets + 1, None)];
    TokensRetire(cells, i);
    hide LiveTokens, Taken, HookCalls;
    if hooked {
      HandOver(Taken(log), LiveTokens(cells), LiveTokens(cells'), HookCalls(log), c.entry.value.token);
    }
  }

  // A token leaving the table and reaching the hook leaves the total unchanged.
  lemma HandOver<T>(taken: multiset<T>, live: multiset<T>, live': multiset<T>, calls: seq<T>, token: T)
    requires taken == live + multiset(calls)
    requires live' + multiset{token} == live + multiset{}
    ensures taken == live' + multiset(calls + [token])
  {
    assert multiset(calls + [token]) == multiset(calls) + multiset{token};
    assert live == live + multiset{} == live' + multiset{token};
    Exchange(live', multiset{token}, multiset(calls));
  }

  lemma HighWaterRetire<T>(cells: seq<Cell<T>>, free: seq<nat>, log: seq<Event<T>>, hooked: bool, i: nat)
    requires i < |cells| && cells[i].entry.Some? && HighWater(cells, free, log)
    ensures var c := cells[i];
            HighWater(cells[i := Cell(c.resets + 1, None)], [i] + free,
                      log + [Retired(Key(i, c.resets), c.entry.value.token, hooked)])
  {
    var c := cells[i];
    SnocCounts(log, Retired(Key(i, c.resets), c.entry.value.token, hooked));
    PutCount(cells, i, Cell(c.resets + 1, None));
    PeakBounds(log);
  }

  lemma LedgerRetire<T>(cells: seq<Cell<T>>, log: seq<Event<T>>, i: nat, hooked: bool)
    requires i < |cells| && cells[i].entry.Some? && Ledger(cells, log)
    ensures var c := cells[i];
            Ledger(cells[i := Cell(c.resets + 1, None)],
                   log + [Retired(Key(i, c.resets), c.entry.value.token, hooked)])
  {
    Snoc(log, Retired(Key(i, cells[i].resets), cells[i].entry.value.token, hooked));
  }

  lemma ResetCore<T>(t: Table<T>, i: nat)
    requires Core(t) && Occupied(t, i)
    ensures Core(Reset(t, i))
  {
    hide Shape, Ledger, Conserved, HighWater;
    ShapePop(t.cells, t.free, i, t.cells[i].resets + 1);
    LedgerRetire(t.cells, t.log, i, t.hooked);
    ConservedRetire(t.cells, t.log, t.hooked, i);
    HighWaterRetire(t.cells, t.free, t.log, t.hooked, i);
  }

  // The last release logs the release before the slot is reset, so the ledger is out of
  // step in between; the two events together settle it.
  lemma LedgerLastRelease<T>(cells: seq<Cell<T>>, log: seq<Event<T>>, i: nat, hooked: bool)
    requires Ledger(cells, log) && Settled(cells, log) && i < |cells| && cells[i].entry.Some?
    requires cells[i].entry.value.references == 1
    ensures var c := cells[i];
            var key := Key(i, c.resets);
            var cells' := cells[i := Cell(c.resets + 1, None)];
            var log' := (log + [Released(key)]) + [Retired(key, c.entry.value.token, hooked)];
            Ledger(cells', log') && Settled(cells', log')
  {
    var key := Key(i, cells[i].resets);
    Snoc(log, Released(key));
    Snoc(log + [Released(key)], Retired(key, cells[i].entry.value.token, hooked));
  }

  lemma SumsReleased<T>(cells: seq<Cell<T>>, free: seq<nat>, log: seq<Event<T>>, hooked: bool, key: Key)
    requires Conserved(cells, log, hooked) && HighWater(cells, free, log)
    ensures Conserved(cells, log + [Released(key)], hooked) && HighWater(cells, free, log + [Released(key)])
  {
    SnocTokens(log, Released(key));
    SnocCounts(log, Released(key));
    PeakBounds(log);
  }

  lemma LastRelease<T>(t: Table<T>, i: nat)
    requires Core(t) && Settled(t.cells, t.log) && Occupied(t, i)
    requires t.cells[i].entry.value.references == 1
    ensures var t' := Reset(t.(log := t.log + [Released(KeyAt(t, i))]), i);
            Core(t') && Settled(t'.cells, t'.log)
  {
    hide Shape, Ledger, Settled, Conserved, HighWater;
    var log := t.log + [Released(KeyAt(t, i))];
    SumsReleased(t.cells, t.free, t.log, t.hooked, KeyAt(t, i));
    ConservedRetire(t.cells, log, t.hooked, i);
    HighWaterRetire(t.cells, t.free, log, t.hooked, i);
    ShapePop(t.cells, t.free, i, t.cells[i].resets + 1);
    LedgerLastRelease(t.cells, t.log, i, t.hooked);
  }

  lemma ReleaseInv<T>(t: Table<T>, h: Handle)
    requires Inv(t)
    ensures Inv(Release(t, h).table)
  {
    hide Core, Settled;
    if Release(t, h).status == Ok {
      var references := t.cells[h.slot].entry.value.references;
      if references == 1 {
        LastRelease(t, h.slot);
      } else {
        Recount(t, h.slot, references - 1, Released(KeyAt(t, h.slot)));
      }
    }
  }

  // ----- sweeping -----

  lemma {:induction false} ResetDownCore<T>(t: Table<T>, i: nat)
    requires Core(t) && i <= |t.cells|
    requires forall j :: i <= j < |t.cells| ==> t.cells[j].entry.None?
    ensures Core(ResetDown(t, i))
    ensures forall j :: 0 <= j < |t.cells| ==> ResetDown(t, i).cells[j].entry.None?
    decreases i
  {
    hide Core;
    if i == 0 {
    } else {
      if Occupied(t, i - 1) { ResetCore(t, i - 1); }
      ResetDownCore(if Occupied(t, i - 1) then Reset(t, i - 1) else t, i - 1);
    }
  }

  lemma {:induction false} ResetUpCore<T>(t: Table<T>, i: nat)
    requires Core(t) && i <= |t.cells|
    requires forall j :: 0 <= j < i ==> t.cells[j].entry.None?
    ensures Core(ResetUp(t, i)) && ResetUp(t, i).hooked == t.hooked
    ensures forall j :: 0 <= j < |t.cells| ==> ResetUp(t, i).cells[j].entry.None?
    decreases |t.cells| - i
  {
    hide Core;
    if i == |t.cells| {
    } else {
      if Occupied(t, i) { ResetCore(t, i); }
      ResetUpCore(if Occupied(t, i) then Reset(t, i) else t, i + 1);
    }
  }

  lemma ShapeSwept<T>(cells: seq<Cell<T>>, free: seq<nat>)
    requires Shape(cells, free)
    requires forall i :: 0 <= i < |cells| ==> cells[i].entry.None?
    ensures Shape(cells, Iota(|cells|))
  {
    forall i | 0 <= i < |cells| ensures i in Iota(|cells|) {
      assert Iota(|cells|)[i] == i;
    }
  }

  lemma InvalidateInv<T>(t: Table<T>)
    requires Inv(t)
    ensures Inv(Invalidate(t)) && Invalidate(t).invalidated
  {
    hide Shape, Ledger, Conserved, Settled;
    if !t.invalidated {
      ResetDownCore(t, |t.cells|);
      var d := ResetDown(t, |t.cells|);
      NothingLive(d.cells);
      ShapeSwept(d.cells, d.free);
    }
  }

  // ----- scripts -----

  lemma EmptyInv<T>(hooked: bool)
    ensures Inv(Empty<T>(hooked))
  {
  }

  // Every script keeps the invariant: whatever the hooks do, and however deeply they nest.
  lemma {:induction false} StepInv<T>(t: Table<T>, op: Op<T>)
    requires Inv(t)
    ensures Inv(Step(t, op))
    decreases op
  {
    hide Inv;
    match op
    case OpInsert(typeId, token, hasOut, alloc) => InsertInv(t, typeId, token, hasOut, alloc);
    case OpRetain(h) => RetainInv(t, h);
    case OpRelease(h, hook) =>
      ReleaseInv(t, h);
      if Release(t, h).fired { RunInv(Release(t, h).table, hook); }
    case OpResolve(_, _, _) =>
    case OpInvalidate(_) => InvalidateInv(t);
  }

  lemma {:induction false} RunInv<T>(t: Table<T>, script: Script<T>)
    requires Inv(t)
    ensures Inv(Run(t, script))
    decreases script
  {
    hide Inv;
    match script
    case Done =>
    case Then(op, rest) =>
      StepInv(t, op);
      RunInv(Step(t, op), rest);
  }
}
