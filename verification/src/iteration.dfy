/**
 * The two hand-written iterator protocols of the boundary and grid containers,
 * modelled as immutable cursors: `Next` returns the produced element and the
 * advanced cursor, or `None` where Python raises `StopIteration`.
 */
module Iteration {
  import opened Wrappers

  /** Cursor of `BoundaryIterable` (`numerical/area/bounds/_base.py`): starts at 0. */
  datatype Cursor<T> = Cursor(items: seq<T>, id: int)

  /** `__iter__`: a fresh cursor at 0, whatever the previous state was. */
  function Iter<T>(items: seq<T>): Cursor<T>
  {
    Cursor(items, 0)
  }

  /** `__next__`: stop when the cursor equals the count, else yield and advance. */
  function Next<T>(c: Cursor<T>): (r: Option<(T, Cursor<T>)>)
    requires 0 <= c.id <= |c.items|
    ensures r.None? <==> c.id == |c.items|
    ensures r.Some? ==> r.value.0 == c.items[c.id] && r.value.1 == Cursor(c.items, c.id + 1)
  {
    if c.id == |c.items| then None else Some((c.items[c.id], Cursor(c.items, c.id + 1)))
  }

  /** Everything a `for` loop over the cursor receives. */
  function Drain<T>(c: Cursor<T>): seq<T>
    requires 0 <= c.id <= |c.items|
    decreases |c.items| - c.id
  {
    match Next(c)
    case None => []
    case Some((x, c')) => [x] + Drain(c')
  }

  /** From position `k` the loop receives exactly the remaining items, in order. */
  lemma {:induction false} DrainFrom<T>(items: seq<T>, k: nat)
    requires k <= |items|
    ensures Drain(Cursor(items, k)) == items[k..]
    decreases |items| - k
  {
    if k < |items| {
      DrainFrom(items, k + 1);
      assert items[k..] == [items[k]] + items[k + 1..];
    }
  }

  /** Iterating a container yields every item once, in order, then stops. */
  lemma IterYieldsAll<T>(items: seq<T>)
    ensures Drain(Iter(items)) == items
  {
    DrainFrom(items, 0);
  }

  /** Cursor of `_BoundaryIterable` (`numerical/area/bound.py`) and `_GridIterable`
      (`numerical/area/grid.py`): starts at -1 and is advanced before reading. */
  datatype PreCursor<T> = PreCursor(items: seq<T>, id: int)

  function PreIter<T>(items: seq<T>): PreCursor<T>
  {
    PreCursor(items, -1)
  }

  /** `__next__`: stop when the cursor is at the last index, else advance and yield. */
  function PreNext<T>(c: PreCursor<T>): (r: Option<(T, PreCursor<T>)>)
    requires -1 <= c.id < |c.items| || (c.id == -1 && |c.items| == 0)
    ensures r.None? <==> c.id == |c.items| - 1
    ensures r.Some? ==> r.value.0 == c.items[c.id + 1] && r.value.1 == PreCursor(c.items, c.id + 1)
  {
    if c.id == |c.items| - 1 then None
    else Some((c.items[c.id + 1], PreCursor(c.items, c.id + 1)))
  }

  function PreDrain<T>(c: PreCursor<T>): seq<T>
    requires -1 <= c.id < |c.items| || (c.id == -1 && |c.items| == 0)
    decreases |c.items| - c.id
  {
    match PreNext(c)
    case None => []
    case Some((x, c')) => [x] + PreDrain(c')
  }

  lemma {:induction false} PreDrainFrom<T>(items: seq<T>, k: int)
    requires -1 <= k < |items| || (k == -1 && |items| == 0)
    ensures PreDrain(PreCursor(items, k)) == items[k + 1..]
    decreases |items| - k
  {
    if k < |items| - 1 {
      PreDrainFrom(items, k + 1);
      assert items[k + 1..] == [items[k + 1]] + items[k + 2..];
    }
  }

  /** The pre-incrementing protocol also yields every item once, in order. */
  lemma PreIterYieldsAll<T>(items: seq<T>)
    ensures PreDrain(PreIter(items)) == items
  {
    PreDrainFrom(items, -1);
  }

  /** `__getitem__` with Python's sequence indexing, negative indices included. */
  function GetItem<T>(items: seq<T>, i: int): (r: Result<T>)
    ensures r.Success? <==> -|items| <= i < |items|
    ensures 0 <= i < |items| ==> r == Success(items[i])
    ensures -|items| <= i < 0 ==> r == Success(items[|items| + i])
    ensures r.Failure? ==> r.error == IndexError
  {
    if 0 <= i < |items| then Success(items[i])
    else if -|items| <= i < 0 then Success(items[|items| + i])
    else Failure(IndexError)
  }
}
