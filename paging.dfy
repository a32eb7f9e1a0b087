/** util/Pageable.java and util/PagedResult.java, plus the page arithmetic the
    repositories share: total pages by ceiling division, the offset/limit
    window a query returns, and the loop that turns the documents of one page
    into entities, skipping those of another kind. */
module Paging {
  import opened Common
  import Mul

  const INT_MIN: int := -0x8000_0000
  const INT_MAX: int := 0x7fff_ffff

  /** A Java `int`. */
  newtype Int32 = x: int | -0x8000_0000 <= x < 0x8000_0000

  /** Two's-complement wrap-around of a mathematical integer to 32 bits. */
  function Wrap32(x: int): (r: Int32)
    ensures INT_MIN <= x <= INT_MAX ==> r as int == x
    ensures (r as int - x) % 0x1_0000_0000 == 0
  {
    var m := x % 0x1_0000_0000;
    (if m <= INT_MAX then m else m - 0x1_0000_0000) as Int32
  }

  /** `Math.max(a, b)` on Java ints. */
  function Max32(a: Int32, b: Int32): Int32 {
    if a >= b then a else b
  }

  /** The immutable page request. `page` and `size` are clamped once, at
      construction. */
  datatype Pageable = Pageable(page: Int32, size: Int32, sortBy: Option<string>, sortDirection: Direction)

  /** `new Pageable()` */
  function DefaultPageable(): (p: Pageable)
    ensures p.page == 0 && p.size == 20 && p.sortBy == None && p.sortDirection == DESCENDING
  {
    Pageable(0, 20, None, DESCENDING)
  }

  /** `new Pageable(page, size, sortBy, sortDirection)` */
  function NewPageable(page: Int32, size: Int32, sortBy: Option<string>, dir: Direction): (p: Pageable)
    ensures p.page >= 0 && p.size >= 1
    ensures page >= 0 ==> p.page == page
    ensures page < 0 ==> p.page == 0
    ensures size >= 1 ==> p.size == size
    ensures size < 1 ==> p.size == 1
    ensures p.sortBy == sortBy && p.sortDirection == dir
  {
    Pageable(Max32(page, 0), Max32(size, 1), sortBy, dir)
  }

  /** `new Pageable(page, size, sortBy)` */
  function NewPageableSorted(page: Int32, size: Int32, sortBy: Option<string>): Pageable {
    NewPageable(page, size, sortBy, DESCENDING)
  }

  /** `new Pageable(page, size, sortDirection)` */
  function NewPageableDirected(page: Int32, size: Int32, dir: Direction): Pageable {
    NewPageable(page, size, None, dir)
  }

  /** `new Pageable(page, size)` */
  function NewPageableUnsorted(page: Int32, size: Int32): Pageable {
    NewPageable(page, size, None, DESCENDING)
  }

  /** The shorter constructors delegate to the four-argument one with a null
      sort field and/or a descending direction. */
  lemma ShortConstructorsDelegate(page: Int32, size: Int32, sortBy: Option<string>, dir: Direction)
    ensures NewPageableSorted(page, size, sortBy) == NewPageable(page, size, sortBy, DESCENDING)
    ensures NewPageableDirected(page, size, dir).sortBy == None
    ensures NewPageableDirected(page, size, dir).sortDirection == dir
    ensures NewPageableUnsorted(page, size) == NewPageableSorted(page, size, None)
    ensures NewPageableUnsorted(page, size).page >= 0 && NewPageableUnsorted(page, size).size >= 1
  {
  }

  /** A constructed Pageable: page is never negative and size is at least one. */
  ghost predicate Clamped(p: Pageable) {
    p.page >= 0 && p.size >= 1
  }

  /** `getOffset()`: `Math.max(0, page) * size` evaluated in 32-bit arithmetic. */
  function Offset(p: Pageable): (r: Int32)
    ensures Clamped(p) && p.page as int * p.size as int <= INT_MAX ==>
              r as int == p.page as int * p.size as int
  {
    Wrap32((if p.page >= 0 then p.page as int else 0) * p.size as int)
  }

  /** Without overflow the offset is non-negative, and the next page starts
      exactly one size further on, so consecutive pages neither overlap nor
      leave a gap. */
  lemma OffsetIsPageTimesSize(p: Pageable)
    requires Clamped(p) && (p.page as int + 1) * p.size as int <= INT_MAX
    ensures Offset(p) >= 0
    ensures p.page < INT_MAX as Int32
    ensures Offset(p.(page := p.page + 1)) as int == Offset(p) as int + p.size as int
  {
    var a, b := p.page as int, p.size as int;
    Mul.MonotoneLeft(0, a, b);
    Mul.MonotoneLeft(a, a + 1, b);
    Mul.MonotoneRight(1, b, a + 1);
    assert (a + 1) * b == a * b + b;
  }

  /** The multiplication wraps: page 2^30 of size 2 has a negative offset. */
  lemma OffsetOverflows()
    ensures Offset(NewPageable(0x4000_0000, 2, None, DESCENDING)) == -0x8000_0000
  {
  }

  /** `(int) Math.ceil((double) totalItems / size)`, taken as exact integer
      ceiling division. */
  function CeilDiv(n: nat, size: int): (r: nat)
    requires size >= 1
    ensures r * size >= n
    ensures r == 0 || (r - 1) * size < n
  {
    (n + size - 1) / size
  }

  /** No items means no pages; the last page is never empty. */
  lemma CeilDivIsLeast(n: nat, size: int, k: nat)
    requires size >= 1 && k * size >= n
    ensures CeilDiv(n, size) <= k
  {
    var r := CeilDiv(n, size);
    if r > k {
      assert (r - 1) * size >= k * size by {
        Mul.MonotoneLeft(k, r - 1, size);
      }
    }
  }

  /** util/PagedResult.java */
  datatype PagedResult<T> = PagedResult(items: seq<T>, currentPage: int, totalItems: nat, totalPages: nat)

  /** Firestore `.offset(offset).limit(limit)` applied to an ordered result. */
  function Window<T>(s: seq<T>, offset: nat, limit: nat): (w: seq<T>)
    ensures |w| <= limit
    ensures forall x :: x in w ==> x in s
    ensures offset + limit <= |s| ==> w == s[offset..offset + limit]
    ensures offset >= |s| ==> w == []
  {
    var lo := if offset <= |s| then offset else |s|;
    var hi := if offset + limit <= |s| then offset + limit else |s|;
    s[lo..hi]
  }

  /** The windows of pages `from` up to `count - 1`, concatenated. */
  function Pages<T>(s: seq<T>, size: nat, from: nat, count: nat): seq<T>
    decreases count - from
  {
    if from >= count then [] else Window(s, from * size, size) + Pages(s, size, from + 1, count)
  }

  /** Reading pages 0 .. totalPages-1 in turn returns every element exactly
      once, in order. */
  lemma {:induction false} PagesCover<T>(s: seq<T>, size: nat)
    requires size >= 1
    ensures Pages(s, size, 0, CeilDiv(|s|, size)) == s
  {
    PagesFrom(s, size, 0, CeilDiv(|s|, size));
  }

  /** Reading more pages than the sequence fills adds nothing. */
  lemma PagesPastEnd<T>(s: seq<T>, size: nat, count: nat)
    requires size >= 1 && count >= CeilDiv(|s|, size)
    ensures Pages(s, size, 0, count) == s
  {
    PagesFromPastEnd(s, size, 0, count);
  }

  /** From any page on, pages up to a count that covers the sequence return
      the rest of it. */
  lemma {:induction false} PagesFromPastEnd<T>(s: seq<T>, size: nat, from: nat, count: nat)
    requires size >= 1 && count >= CeilDiv(|s|, size) && from <= count
    ensures Pages(s, size, from, count) == if from * size <= |s| then s[from * size..] else []
    decreases count - from
  {
    var lo := from * size;
    if from >= count {
      assert lo >= |s| by {
        Mul.MonotoneLeft(CeilDiv(|s|, size), from, size);
      }
    } else {
      PagesFromPastEnd(s, size, from + 1, count);
      assert (from + 1) * size == lo + size;
      if lo + size <= |s| {
        assert Window(s, lo, size) == s[lo..lo + size];
        assert s[lo..] == s[lo..lo + size] + s[lo + size..];
      } else if lo <= |s| {
        assert Window(s, lo, size) == s[lo..];
      } else {
        assert Window(s, lo, size) == [];
      }
    }
  }

  lemma {:induction false} PagesFrom<T>(s: seq<T>, size: nat, from: nat, count: nat)
    requires size >= 1 && count == CeilDiv(|s|, size) && from <= count
    ensures from * size <= |s| || from == count
    ensures Pages(s, size, from, count) == if from * size <= |s| then s[from * size..] else []
    decreases count - from
  {
    if from >= count {
      assert from == count;
    } else {
      assert from * size < |s| by {
        Mul.MonotoneLeft(from, count - 1, size);
      }
      PagesFrom(s, size, from + 1, count);
      var lo := from * size;
      assert (from + 1) * size == lo + size;
      if lo + size <= |s| {
        assert Window(s, lo, size) == s[lo..lo + size];
        assert s[lo..] == s[lo..lo + size] + s[lo + size..];
      } else {
        assert Window(s, lo, size) == s[lo..];
        assert from + 1 == count by {
          if from + 1 < count {
            Mul.MonotoneLeft(from + 1, count - 1, size);
          }
        }
      }
    }
  }

  /** What the loop over one page does with one document. */
  datatype Step<T> = Keep(item: T) | Skip | Abort(error: Error)

  /** The items collected by the repositories' for-loops, and the exception
      that stopped the loop, if any. Items collected before the exception are
      kept. */
  datatype Collected<T> = Collected(items: seq<T>, error: Option<Error>)

  function Collect<T>(steps: seq<Step<T>>): Collected<T> {
    if steps == [] then Collected([], None)
    else match steps[0]
      case Abort(e) => Collected([], Some(e))
      case Skip => Collect(steps[1..])
      case Keep(x) =>
        var rest := Collect(steps[1..]);
        Collected([x] + rest.items, rest.error)
  }

  /** The items are those kept, in order: every item came from a Keep step,
      and there are never more items than documents. */
  lemma {:induction false} CollectBounds<T>(steps: seq<Step<T>>)
    ensures |Collect(steps).items| <= |steps|
    ensures forall x :: x in Collect(steps).items ==> Keep(x) in steps
  {
    if steps != [] {
      CollectBounds(steps[1..]);
      assert forall x :: Keep(x) in steps[1..] ==> Keep(x) in steps;
    }
  }

  /** When no document is skipped or fails, every document becomes an item. */
  lemma {:induction false} CollectAllKept<T>(steps: seq<Step<T>>)
    requires forall i :: 0 <= i < |steps| ==> steps[i].Keep?
    ensures Collect(steps).error == None
    ensures |Collect(steps).items| == |steps|
    ensures forall i :: 0 <= i < |steps| ==> Collect(steps).items[i] == steps[i].item
  {
    if steps != [] {
      CollectAllKept(steps[1..]);
    }
  }

  /** An error is reported only if some document failed. */
  lemma {:induction false} CollectErrorFromFail<T>(steps: seq<Step<T>>)
    requires Collect(steps).error.Some?
    ensures Abort(Collect(steps).error.value) in steps
  {
    if steps[0].Abort? {
    } else {
      CollectErrorFromFail(steps[1..]);
    }
  }

  /** One step of the loop: `Collect` of a prefix extended by one more step. */
  lemma {:induction false} CollectSnoc<T>(steps: seq<Step<T>>, x: Step<T>)
    requires Collect(steps).error == None
    ensures Collect(steps + [x]) ==
      match x
      case Keep(v) => Collected(Collect(steps).items + [v], None)
      case Skip => Collect(steps)
      case Abort(e) => Collected(Collect(steps).items, Some(e))
  {
    if steps == [] {
      assert [x][1..] == [];
    } else {
      assert (steps + [x])[1..] == steps[1..] + [x];
      match steps[0]
      case Keep(_) => CollectSnoc(steps[1..], x);
      case Skip => CollectSnoc(steps[1..], x);
    }
  }

  /** A failure ends the loop: what follows it is never looked at. */
  lemma {:induction false} CollectStopsAtFail<T>(steps: seq<Step<T>>, e: Error, rest: seq<Step<T>>)
    requires Collect(steps).error == None
    ensures Collect(steps + [Abort(e)] + rest) == Collected(Collect(steps).items, Some(e))
  {
    if steps == [] {
      assert ([] + [Abort(e)] + rest)[0] == Abort(e);
    } else {
      assert (steps + [Abort(e)] + rest)[1..] == steps[1..] + [Abort(e)] + rest;
      match steps[0]
      case Keep(_) => CollectStopsAtFail(steps[1..], e, rest);
      case Skip => CollectStopsAtFail(steps[1..], e, rest);
    }
  }

  /** The loop stops at the first failing document: the result is what the
      steps before it collected, with its error. */
  /** One step of a `forEach` over the steps: a kept item is appended, a
      skipped one changes nothing, and an exception ends the whole run. */
  lemma CollectNext<T>(steps: seq<Step<T>>, i: nat, items: seq<T>)
    requires i < |steps| && Collect(steps[..i]) == Collected(items, None)
    ensures steps[i].Keep? ==> Collect(steps[..i + 1]) == Collected(items + [steps[i].item], None)
    ensures steps[i].Skip? ==> Collect(steps[..i + 1]) == Collected(items, None)
    ensures steps[i].Abort? ==> Collect(steps) == Collected(items, Some(steps[i].error))
  {
    assert steps[..i + 1] == steps[..i] + [steps[i]];
    CollectSnoc(steps[..i], steps[i]);
    if steps[i].Abort? {
      CollectAbortAt(steps, i, steps[i].error);
    }
  }

  lemma CollectAbortAt<T>(steps: seq<Step<T>>, i: nat, e: Error)
    requires i < |steps| && steps[i] == Abort(e) && Collect(steps[..i]).error == None
    ensures Collect(steps) == Collected(Collect(steps[..i]).items, Some(e))
  {
    CollectStopsAtFail(steps[..i], e, steps[i + 1..]);
    assert steps == steps[..i] + [Abort(e)] + steps[i + 1..];
  }
}

/** Small facts about multiplication, kept apart so that the solver sees only
    the one it needs. */
module Mul {
  lemma MonotoneLeft(a: int, b: int, c: int)
    requires a <= b && c >= 0
    ensures a * c <= b * c
  {
  }

  lemma MonotoneRight(a: int, b: int, c: int)
    requires a <= b && c >= 0
    ensures c * a <= c * b
  {
  }
}
