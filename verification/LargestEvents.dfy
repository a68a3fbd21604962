/** Keeping only the largest events of a stream, a handful at a time. */
module LargestEvents {
  // After every event the list is sorted, largest first with ties in arrival order, and cut to
  // twenty. The result is the same as sorting the whole stream once and cutting at the end.

  const MAX_LISTED_EVENTS := 20

  /** An event, its size, and where it came in the stream. */
  datatype Event = Event(size: real, arrival: nat)

  /** Places `e` after every event at least as large: a stable insertion, largest first. */
  function Insert(items: seq<Event>, e: Event): seq<Event> {
    if items == [] then [e]
    else if items[0].size >= e.size then [items[0]] + Insert(items[1..], e)
    else [e] + items
  }

  /** A stable sort, largest first. */
  function SortDescending(items: seq<Event>): (sorted: seq<Event>)
    ensures |sorted| == |items|
  {
    if items == [] then []
    else
      var rest := SortDescending(items[..|items| - 1]);
      InsertLength(rest, items[|items| - 1]);
      Insert(rest, items[|items| - 1])
  }

  lemma {:induction false} InsertLength(items: seq<Event>, e: Event)
    ensures |Insert(items, e)| == |items| + 1
  {
    if items != [] {
      InsertLength(items[1..], e);
    }
  }

  function Cut(items: seq<Event>): seq<Event> {
    if |items| <= MAX_LISTED_EVENTS then items else items[..MAX_LISTED_EVENTS]
  }

  /** One step: append, sort the whole list, drop everything past the twentieth. */
  function KeepLargest(items: seq<Event>, e: Event): seq<Event> {
    Cut(SortDescending(items + [e]))
  }

  ghost predicate Descending(items: seq<Event>) {
    forall i, j :: 0 <= i < j < |items| ==> items[i].size >= items[j].size
  }

  // ---------- the sort is a stable sort ----------

  ghost predicate AtMost(items: seq<Event>, size: real) {
    forall i :: 0 <= i < |items| ==> items[i].size <= size
  }

  lemma {:induction false} InsertKeepsOrder(items: seq<Event>, e: Event, bound: real)
    requires Descending(items) && AtMost(items, bound) && e.size <= bound
    ensures Descending(Insert(items, e)) && AtMost(Insert(items, e), bound)
  {
    if items != [] && items[0].size >= e.size {
      assert AtMost(items[1..], items[0].size);
      InsertKeepsOrder(items[1..], e, items[0].size);
    }
  }

  lemma {:induction false} InsertKeepsEvents(items: seq<Event>, e: Event)
    ensures multiset(Insert(items, e)) == multiset(items) + multiset{e}
  {
    if items != [] {
      assert items == [items[0]] + items[1..];
      InsertKeepsEvents(items[1..], e);
    }
  }

  /** The events of one size, in order. */
  ghost function OfSize(items: seq<Event>, size: real): seq<Event> {
    if items == [] then []
    else if items[0].size == size then [items[0]] + OfSize(items[1..], size)
    else OfSize(items[1..], size)
  }

  lemma {:induction false} OfSizeSnoc(items: seq<Event>, e: Event, size: real)
    ensures OfSize(items + [e], size) == OfSize(items, size) + (if e.size == size then [e] else [])
  {
    if items == [] {
      assert items + [e] == [e];
      assert [e][1..] == [];
    } else {
      assert (items + [e])[1..] == items[1..] + [e];
      OfSizeSnoc(items[1..], e, size);
    }
  }

  lemma {:induction false} SmallerSizeAbsent(items: seq<Event>, size: real)
    requires forall i :: 0 <= i < |items| ==> items[i].size < size
    ensures OfSize(items, size) == []
  {
    if items != [] {
      SmallerSizeAbsent(items[1..], size);
    }
  }

  lemma {:induction false} InsertIsStable(items: seq<Event>, e: Event, size: real)
    requires Descending(items)
    ensures OfSize(Insert(items, e), size) == OfSize(items, size) + (if e.size == size then [e] else [])
  {
    if items == [] {
      assert [e][1..] == [];
    } else if items[0].size >= e.size {
      InsertIsStable(items[1..], e, size);
      assert Insert(items, e)[1..] == Insert(items[1..], e);
    } else {
      assert ([e] + items)[1..] == items;
      if e.size == size {
        SmallerSizeAbsent(items, size);
      }
    }
  }

  lemma {:induction false} SortDescends(items: seq<Event>)
    ensures Descending(SortDescending(items))
  {
    if items != [] {
      var n := |items| - 1;
      SortDescends(items[..n]);
      var sorted := SortDescending(items[..n]);
      var bound := if n > 0 && sorted[0].size > items[n].size then sorted[0].size else items[n].size;
      assert AtMost(sorted, bound);
      InsertKeepsOrder(sorted, items[n], bound);
    }
  }

  /** The sort orders by size, loses and adds nothing, and keeps ties in arrival order. */
  lemma {:induction false} SortIsStable(items: seq<Event>, size: real)
    ensures Descending(SortDescending(items))
    ensures multiset(SortDescending(items)) == multiset(items)
    ensures OfSize(SortDescending(items), size) == OfSize(items, size)
  {
    hide Insert, OfSize;
    SortDescends(items);
    if items != [] {
      var n := |items| - 1;
      SortIsStable(items[..n], size);
      InsertKeepsEvents(SortDescending(items[..n]), items[n]);
      InsertIsStable(SortDescending(items[..n]), items[n], size);
      assert items == items[..n] + [items[n]];
      OfSizeSnoc(items[..n], items[n], size);
    }
  }

  // ---------- cutting early changes nothing ----------

  lemma {:induction false} SortOfSorted(items: seq<Event>)
    requires Descending(items)
    ensures SortDescending(items) == items
  {
    if items != [] {
      var n := |items| - 1;
      SortOfSorted(items[..n]);
      InsertAtEnd(items[..n], items[n]);
      assert items == items[..n] + [items[n]];
    }
  }

  lemma {:induction false} InsertAtEnd(items: seq<Event>, e: Event)
    requires forall i :: 0 <= i < |items| ==> items[i].size >= e.size
    ensures Insert(items, e) == items + [e]
  {
    if items != [] {
      InsertAtEnd(items[1..], e);
      assert items == [items[0]] + items[1..];
    }
  }

  /** Only the first `n` events matter for the first `n` after an insertion. */
  lemma {:induction false} InsertThenTake(items: seq<Event>, e: Event, n: nat)
    requires n <= |items|
    ensures |Insert(items, e)| == |items| + 1 && |Insert(items[..n], e)| == n + 1
    ensures Insert(items, e)[..n] == Insert(items[..n], e)[..n]
  {
    InsertLength(items, e);
    InsertLength(items[..n], e);
    if n > 0 && items[0].size >= e.size {
      InsertThenTake(items[1..], e, n - 1);
      assert items[..n][1..] == items[1..][..n - 1];
      var rest, cut := Insert(items[1..], e), Insert(items[1..][..n - 1], e);
      assert Insert(items, e)[..n] == [items[0]] + rest[..n - 1];
      assert Insert(items[..n], e)[..n] == [items[0]] + cut[..n - 1];
    } else if n > 0 {
      assert Insert(items, e)[..n] == [e] + items[..n - 1];
      assert Insert(items[..n], e)[..n] == [e] + items[..n - 1];
    }
  }

  lemma CutThenInsert(sorted: seq<Event>, e: Event)
    requires Descending(sorted)
    ensures KeepLargest(Cut(sorted), e) == Cut(Insert(sorted, e))
  {
    var kept := Cut(sorted);
    assert Descending(kept);
    var appended := kept + [e];
    assert appended[..|appended| - 1] == kept;
    SortOfSorted(kept);
    InsertLength(kept, e);
    InsertLength(sorted, e);
    if |sorted| >= MAX_LISTED_EVENTS {
      InsertThenTake(sorted, e, MAX_LISTED_EVENTS);
      assert sorted[..MAX_LISTED_EVENTS] == kept;
    }
  }

  /** Feeding any stream leaves the first twenty of the stable, largest-first sort of all of it. */
  method FeedAll(events: seq<Event>) returns (items: seq<Event>)
    ensures items == Cut(SortDescending(events))
  {
    items := [];
    for k := 0 to |events|
      invariant items == Cut(SortDescending(events[..k]))
    {
      assert events[..k + 1][..k] == events[..k] && events[..k + 1][k] == events[k];
      SortDescends(events[..k]);
      CutThenInsert(SortDescending(events[..k]), events[k]);
      items := KeepLargest(items, events[k]);
    }
    assert events[..|events|] == events;
  }
}
