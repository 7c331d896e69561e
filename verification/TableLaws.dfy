/** The laws a registry built on the handle table needs, in terms of the map of live handles
    and of the tokens handed to the destroy hook. */
module TableLaws {
  import opened Abi
  import opened TableSpec
  import opened TableInvariant
  import opened TableTheorems
  import opened HandleMap

  lemma EmptyLaw<T>(hooked: bool)
    ensures Inv(Empty<T>(hooked)) && Live(Empty<T>(hooked)) == map[]
  {
    EmptyInv<T>(hooked);
  }

  lemma InsertLaw<T>(t: Table<T>, typeId: nat, token: Option<T>, hasOut: bool, alloc: bool)
    requires Inv(t)
    ensures var r := Insert(t, typeId, token, hasOut, alloc);
            && Inv(r.table) && r.table.invalidated == t.invalidated && r.table.hooked == t.hooked
            && (r.status != Ok ==> r.table == t && r.handle == NULL_HANDLE)
            && (r.status == Ok ==>
                  && token.Some? && !t.invalidated
                  && r.handle.generation != 0 && r.handle !in Live(t)
                  && Live(r.table) == Live(t)[r.handle := Entry(token.value, typeId, 1)])
  {
    hide Inv, Live, Reusable, CapacityFor, Generation;
    InsertInv(t, typeId, token, hasOut, alloc);
    InsertRefines(t, typeId, token, hasOut, alloc);
    var r := Insert(t, typeId, token, hasOut, alloc);
    if r.status == Ok { IssuedGeneration(r.table, r.handle); }
  }

  lemma IssuedGeneration<T>(t: Table<T>, h: Handle)
    ensures h in Live(t) ==> h.generation != 0
  {
  }

  lemma RetainLaw<T>(t: Table<T>, h: Handle)
    requires Inv(t)
    ensures var o := Retain(t, h);
            && Inv(o.table) && o.table.invalidated == t.invalidated && o.table.hooked == t.hooked
            && (o.status != Ok ==> o.table == t)
            && (o.status == Ok <==> !t.invalidated && h in Live(t) && Live(t)[h].references < UINT32_MAX)
            && (o.status == Ok ==>
                  Live(o.table) == Live(t)[h := Live(t)[h].(references := Live(t)[h].references + 1)])
  {
    hide Inv, Live, Reusable, CapacityFor, Generation, Matches;
    RetainInv(t, h);
    RetainRefines(t, h);
  }

  lemma ReleaseLaw<T>(t: Table<T>, h: Handle)
    requires Inv(t)
    ensures var o := Release(t, h);
            && Inv(o.table) && o.table.invalidated == t.invalidated && o.table.hooked == t.hooked
            && (o.status != Ok ==> o.table == t && !o.fired)
            && (o.status == Ok <==> !t.invalidated && h in Live(t))
            && (o.status == Ok && Live(t)[h].references == 1 ==>
                  Live(o.table) == Live(t) - {h} && o.fired == t.hooked)
            && (o.status == Ok && Live(t)[h].references > 1 ==>
                  && Live(o.table) == Live(t)[h := Live(t)[h].(references := Live(t)[h].references - 1)]
                  && !o.fired)
  {
    hide Inv, Live, Reusable, CapacityFor, Generation, Matches, NextGeneration;
    ReleaseInv(t, h);
    ReleaseRefines(t, h);
    ReleaseKeeps(t, h);
  }

  lemma ReleaseKeeps<T>(t: Table<T>, h: Handle)
    ensures Release(t, h).table.invalidated == t.invalidated && Release(t, h).table.hooked == t.hooked
  {
  }

  lemma InvalidateLaw<T>(t: Table<T>)
    requires Inv(t)
    ensures var t' := Invalidate(t);
            Inv(t') && t'.invalidated && t'.hooked == t.hooked && Live(t') == map[]
  {
    hide Inv, Live, Reusable, Invalidate;
    InvalidateInv(t);
    InvalidateRefines(t);
  }

  // ----- which tokens a sweep hands over -----

  function TokensDown<T>(cells: seq<Cell<T>>, i: nat): seq<T>
    requires i <= |cells|
    decreases i
  {
    if i == 0 then []
    else (if cells[i - 1].entry.Some? then [cells[i - 1].entry.value.token] else []) + TokensDown(cells, i - 1)
  }

  function TokensUp<T>(cells: seq<Cell<T>>, i: nat): seq<T>
    requires i <= |cells|
    decreases |cells| - i
  {
    if i == |cells| then []
    else (if cells[i].entry.Some? then [cells[i].entry.value.token] else []) + TokensUp(cells, i + 1)
  }

  // The tokens an invalidation hands to the hook, in order.
  function InvalidationCalls<T>(t: Table<T>): seq<T> {
    if t.invalidated || !t.hooked then [] else TokensDown(t.cells, |t.cells|)
  }

  // The tokens destroying the table hands to the hook, in order.
  function DestroyCalls<T>(t: Table<T>): seq<T> {
    if t.hooked then TokensUp(t.cells, 0) else []
  }

  // Resetting a slot hands over its token and leaves the cells around it alone.
  lemma ResetParts<T>(t: Table<T>, i: nat)
    requires Occupied(t, i)
    ensures Reset(t, i).cells[..i] == t.cells[..i] && Reset(t, i).cells[i + 1..] == t.cells[i + 1..]
    ensures |Reset(t, i).cells| == |t.cells| && Reset(t, i).hooked == t.hooked
    ensures HookCalls(Reset(t, i).log) ==
            HookCalls(t.log) + if t.hooked then [t.cells[i].entry.value.token] else []
  {
    SnocTokens(t.log, Reset(t, i).log[|t.log|]);
  }

  lemma DownStep<T>(t: Table<T>, i: nat)
    requires i <= |t.cells|
    ensures i == 0 ==> ResetDown(t, i) == t && TokensDown(t.cells, i) == []
    ensures i > 0 && Occupied(t, i - 1) ==>
              && ResetDown(t, i) == ResetDown(Reset(t, i - 1), i - 1)
              && TokensDown(t.cells, i) == [t.cells[i - 1].entry.value.token] + TokensDown(t.cells, i - 1)
    ensures i > 0 && !Occupied(t, i - 1) ==>
              ResetDown(t, i) == ResetDown(t, i - 1) && TokensDown(t.cells, i) == TokensDown(t.cells, i - 1)
  {
  }

  lemma UpStep<T>(t: Table<T>, i: nat)
    requires i <= |t.cells|
    ensures i == |t.cells| ==> ResetUp(t, i) == t && TokensUp(t.cells, i) == []
    ensures i < |t.cells| && Occupied(t, i) ==>
              && ResetUp(t, i) == ResetUp(Reset(t, i), i + 1)
              && TokensUp(t.cells, i) == [t.cells[i].entry.value.token] + TokensUp(t.cells, i + 1)
    ensures i < |t.cells| && !Occupied(t, i) ==>
              ResetUp(t, i) == ResetUp(t, i + 1) && TokensUp(t.cells, i) == TokensUp(t.cells, i + 1)
  {
  }

  lemma {:induction false} ResetDownCalls<T>(t: Table<T>, i: nat)
    requires i <= |t.cells|
    ensures HookCalls(ResetDown(t, i).log) ==
            HookCalls(t.log) + if t.hooked then TokensDown(t.cells, i) else []
    decreases i
  {
    hide HookCalls, Reset, ResetDown, TokensDown;
    DownStep(t, i);
    if i > 0 {
      if Occupied(t, i - 1) {
        ResetParts(t, i - 1);
        ResetDownCalls(Reset(t, i - 1), i - 1);
        TokensDownFrame(t.cells, Reset(t, i - 1).cells, i - 1);
        Regroup(HookCalls(t.log), t.cells[i - 1].entry.value.token, TokensDown(t.cells, i - 1));
      } else {
        ResetDownCalls(t, i - 1);
      }
    }
  }

  lemma Regroup<T>(a: seq<T>, x: T, b: seq<T>)
    ensures a + [x] + b == a + ([x] + b)
  {
  }

  lemma {:induction false} TokensDownFrame<T>(a: seq<Cell<T>>, b: seq<Cell<T>>, i: nat)
    requires i <= |a| == |b| && a[..i] == b[..i]
    ensures TokensDown(a, i) == TokensDown(b, i)
    decreases i
  {
    if i == 0 {
    } else {
      assert a[i - 1] == a[..i][i - 1] == b[..i][i - 1] == b[i - 1];
      assert a[..i - 1] == a[..i][..i - 1] == b[..i][..i - 1] == b[..i - 1];
      TokensDownFrame(a, b, i - 1);
    }
  }

  lemma {:induction false} ResetUpCalls<T>(t: Table<T>, i: nat)
    requires i <= |t.cells|
    ensures HookCalls(ResetUp(t, i).log) ==
            HookCalls(t.log) + if t.hooked then TokensUp(t.cells, i) else []
    decreases |t.cells| - i
  {
    hide HookCalls, Reset, ResetUp, TokensUp;
    UpStep(t, i);
    if i < |t.cells| {
      if Occupied(t, i) {
        ResetParts(t, i);
        ResetUpCalls(Reset(t, i), i + 1);
        TokensUpFrame(t.cells, Reset(t, i).cells, i + 1);
        Regroup(HookCalls(t.log), t.cells[i].entry.value.token, TokensUp(t.cells, i + 1));
      } else {
        ResetUpCalls(t, i + 1);
      }
    }
  }

  lemma {:induction false} TokensUpFrame<T>(a: seq<Cell<T>>, b: seq<Cell<T>>, i: nat)
    requires i <= |a| == |b| && a[i..] == b[i..]
    ensures TokensUp(a, i) == TokensUp(b, i)
    decreases |a| - i
  {
    if i == |a| {
    } else {
      assert a[i] == a[i..][0] == b[i..][0] == b[i];
      assert a[i + 1..] == a[i..][1..] == b[i..][1..] == b[i + 1..];
      TokensUpFrame(a, b, i + 1);
    }
  }

  lemma SweepCalls<T>(t: Table<T>)
    ensures HookCalls(Invalidate(t).log) == HookCalls(t.log) + InvalidationCalls(t)
    ensures HookCalls(Destroy(t).log) == HookCalls(t.log) + DestroyCalls(t)
  {
    ResetDownCalls(t, |t.cells|);
    ResetUpCalls(t, 0);
  }

  lemma {:induction false} InTokensDown<T>(cells: seq<Cell<T>>, i: nat, x: T)
    requires i <= |cells|
    ensures x in TokensDown(cells, i) <==>
              exists j :: 0 <= j < i && cells[j].entry.Some? && cells[j].entry.value.token == x
    decreases i
  {
    if i == 0 {
    } else {
      InTokensDown(cells, i - 1, x);
    }
  }

  // Invalidation hands over exactly the tokens of live handles.
  lemma InvalidationTakesLive<T>(t: Table<T>, x: T)
    requires t.hooked && !t.invalidated
    ensures x in InvalidationCalls(t) <==> exists h :: h in Live(t) && Live(t)[h].token == x
  {
    InTokensDown(t.cells, |t.cells|, x);
    forall j | 0 <= j < |t.cells| && t.cells[j].entry.Some?
      ensures HandleAt(t, j) in Live(t) && Live(t)[HandleAt(t, j)] == t.cells[j].entry.value
    {
      GenerationStep(t.cells[j].resets);
      assert Matches(t, HandleAt(t, j));
    }
  }

  // Destroying a table without live handles calls no hook.
  lemma NothingToDestroy<T>(t: Table<T>)
    requires Live(t) == map[]
    ensures DestroyCalls(t) == []
  {
    forall j | 0 <= j < |t.cells| ensures t.cells[j].entry.None? {
      GenerationStep(t.cells[j].resets);
      assert Matches(t, HandleAt(t, j)) <==> HandleAt(t, j) in Live(t);
    }
    NoTokensUp(t.cells, 0);
  }

  lemma {:induction false} NoTokensUp<T>(cells: seq<Cell<T>>, i: nat)
    requires i <= |cells| && forall j :: 0 <= j < |cells| ==> cells[j].entry.None?
    ensures TokensUp(cells, i) == []
    decreases |cells| - i
  {
    if i == |cells| {
    } else {
      NoTokensUp(cells, i + 1);
    }
  }
}
