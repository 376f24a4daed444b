/** The report history of one system-status item: bounded, and without repetitions. */
module History {

  const MAX_ITEM: nat := 5

  /** A value with the time it was last reported. */
  datatype Item<T> = Item(value: T, reported: int)

  ghost predicate Equivalence<T(!new)>(eq: (T, T) -> bool) {
    (forall x :: eq(x, x))
    && (forall x, y :: eq(x, y) ==> eq(y, x))
    && (forall x, y, z :: eq(x, y) && eq(y, z) ==> eq(x, z))
  }

  predicate Repeats<T>(report: seq<Item<T>>, s: Item<T>, eq: (T, T) -> bool) {
    report != [] && eq(report[|report| - 1].value, s.value)
  }

  function Refresh<T>(report: seq<Item<T>>, s: Item<T>): seq<Item<T>>
    requires report != []
  {
    report[|report| - 1 := report[|report| - 1].(reported := s.reported)]
  }

  function Bounded<T>(report: seq<Item<T>>): seq<Item<T>> {
    if |report| > MAX_ITEM then report[1..] else report
  }

  function Set<T>(report: seq<Item<T>>, s: Item<T>, eq: (T, T) -> bool): seq<Item<T>> {
    if Repeats(report, s, eq) then Refresh(report, s) else Bounded(report + [s])
  }

  /** The report after a stream of items. */
  function Run<T>(stream: seq<Item<T>>, eq: (T, T) -> bool): seq<Item<T>> {
    if stream == [] then [] else Set(Run(stream[..|stream| - 1], eq), stream[|stream| - 1], eq)
  }

  // ----- the full stream without repetitions ------------------------------------------------

  /** Drops each item that equals its neighbour in the stream, keeping the neighbour's value
      with the later time. */
  function Dedup<T>(stream: seq<Item<T>>, eq: (T, T) -> bool): (r: seq<Item<T>>)
    ensures stream != [] ==> r != []
  {
    if stream == [] then []
    else
      var before, s := stream[..|stream| - 1], stream[|stream| - 1];
      if Repeats(before, s, eq) then Refresh(Dedup(before, eq), s) else Dedup(before, eq) + [s]
  }

  function Last<T>(s: seq<T>, n: nat): seq<T> {
    if |s| <= n then s else s[|s| - n..]
  }

  /** The last kept value is equivalent to the last value of the stream. */
  lemma {:induction false} DedupEnds<T(!new)>(stream: seq<Item<T>>, eq: (T, T) -> bool)
    requires Equivalence(eq) && stream != []
    ensures eq(Dedup(stream, eq)[|Dedup(stream, eq)| - 1].value, stream[|stream| - 1].value)
  {
    var before := stream[..|stream| - 1];
    if before != [] {
      DedupEnds(before, eq);
    }
  }

  lemma TailOfRefresh<T>(full: seq<Item<T>>, s: Item<T>)
    requires full != []
    ensures Last(full, MAX_ITEM) != [] && Refresh(Last(full, MAX_ITEM), s) == Last(Refresh(full, s), MAX_ITEM)
  {
  }

  lemma TailOfAppend<T>(full: seq<Item<T>>, s: Item<T>)
    ensures Bounded(Last(full, MAX_ITEM) + [s]) == Last(full + [s], MAX_ITEM)
  {
  }

  lemma TailEnds<T>(full: seq<Item<T>>)
    requires full != []
    ensures var tail := Last(full, MAX_ITEM); tail != [] && tail[|tail| - 1] == full[|full| - 1]
  {
  }

  /** The bounded report is at every moment the tail of the deduplicated full stream. */
  lemma {:induction false} ReportIsTail<T(!new)>(stream: seq<Item<T>>, eq: (T, T) -> bool)
    requires Equivalence(eq)
    ensures Run(stream, eq) == Last(Dedup(stream, eq), MAX_ITEM)
  {
    if stream != [] {
      var before, s := stream[..|stream| - 1], stream[|stream| - 1];
      ReportIsTail(before, eq);
      var full := Dedup(before, eq);
      TailOfAppend(full, s);
      if before != [] {
        DedupEnds(before, eq);
        TailEnds(full);
        SameClass(full[|full| - 1].value, before[|before| - 1].value, s.value, eq);
        TailOfRefresh(full, s);
      }
    }
  }

  lemma SameClass<T(!new)>(x: T, y: T, z: T, eq: (T, T) -> bool)
    requires Equivalence(eq) && eq(x, y)
    ensures eq(x, z) <==> eq(y, z)
  {
    assert eq(y, x);
  }

  /** A call reports a change exactly when the new value differs from the previous one. */
  lemma ChangeReported<T(!new)>(stream: seq<Item<T>>, s: Item<T>, eq: (T, T) -> bool)
    requires Equivalence(eq)
    ensures Repeats(Run(stream, eq), s, eq) <==> stream != [] && eq(stream[|stream| - 1].value, s.value)
  {
    ReportIsTail(stream, eq);
    if stream != [] {
      var full := Dedup(stream, eq);
      DedupEnds(stream, eq);
      TailEnds(full);
      SameClass(full[|full| - 1].value, stream[|stream| - 1].value, s.value, eq);
    }
  }

  /** No two neighbours in a report are equivalent. */
  lemma {:induction false} NoNeighboursEqual<T(!new)>(stream: seq<Item<T>>, eq: (T, T) -> bool)
    requires Equivalence(eq)
    ensures |Run(stream, eq)| <= MAX_ITEM
    ensures forall i :: 0 <= i < |Run(stream, eq)| - 1 ==> !eq(Run(stream, eq)[i].value, Run(stream, eq)[i + 1].value)
  {
    if stream != [] {
      NoNeighboursEqual(stream[..|stream| - 1], eq);
    }
  }

  // ----- the report spelled out -----------------------------------------------------------------

  /** The positions in the stream where the value changes. */
  function Changes<T>(stream: seq<Item<T>>, eq: (T, T) -> bool): seq<nat> {
    if stream == [] then []
    else
      var n := |stream| - 1;
      var same := n > 0 && eq(stream[n - 1].value, stream[n].value);
      Changes(stream[..n], eq) + (if same then [] else [n])
  }

  /** The last position before the value changes again. */
  function Until<T>(stream: seq<Item<T>>, changes: seq<nat>, j: nat): int {
    if j + 1 < |changes| then changes[j + 1] - 1 else |stream| - 1
  }

  /** The item is the change at `changes[j]`: the value it began with, last reported just before the
      next one. */
  ghost predicate Spells<T>(item: Item<T>, stream: seq<Item<T>>, changes: seq<nat>, j: nat)
    requires j < |changes|
  {
    changes[j] <= Until(stream, changes, j) < |stream|
    && item == Item(stream[changes[j]].value, stream[Until(stream, changes, j)].reported)
  }

  lemma SpelledOn<T>(stream: seq<Item<T>>, eq: (T, T) -> bool, full: seq<Item<T>>, j: nat)
    requires stream != [] && j < |Changes(stream[..|stream| - 1], eq)| == |full|
    requires Spells(full[j], stream[..|stream| - 1], Changes(stream[..|stream| - 1], eq), j)
    ensures j < |Changes(stream, eq)|
    ensures var s, changes := stream[|stream| - 1], Changes(stream, eq);
      Spells(if |changes| == |full| then Refresh(full, s)[j] else full[j], stream, changes, j)
  {
  }

  lemma {:induction false} DedupSpelled<T>(stream: seq<Item<T>>, eq: (T, T) -> bool)
    ensures |Dedup(stream, eq)| == |Changes(stream, eq)|
    ensures forall j :: 0 <= j < |Changes(stream, eq)| ==>
      Spells(Dedup(stream, eq)[j], stream, Changes(stream, eq), j)
  {
    if stream != [] {
      var before := stream[..|stream| - 1];
      DedupSpelled(before, eq);
      forall j | 0 <= j < |Changes(stream, eq)|
        ensures Spells(Dedup(stream, eq)[j], stream, Changes(stream, eq), j)
      {
        if j < |Changes(before, eq)| {
          SpelledOn(stream, eq, Dedup(before, eq), j);
        }
      }
    }
  }

  /** The report holds the last five changes of the stream, in order, or all of them if there are fewer:
      each with the value it began with and the time at which that was last reported. */
  lemma ReportSpelled<T(!new)>(stream: seq<Item<T>>, eq: (T, T) -> bool)
    requires Equivalence(eq)
    ensures var report, changes := Run(stream, eq), Changes(stream, eq);
      |report| == (if |changes| < 5 then |changes| else 5)
      && forall k :: 0 <= k < |report| ==> Spells(report[k], stream, changes, |changes| - |report| + k)
  {
    ReportIsTail(stream, eq);
    DedupSpelled(stream, eq);
  }

  class Report<T> {
    var items: seq<Item<T>>

    constructor ()
      ensures items == []
    {
      items := [];
    }

    method SetItemInReport(s: Item<T>, eq: (T, T) -> bool) returns (changed: bool)
      modifies this
      ensures items == Set(old(items), s, eq) && changed == !Repeats(old(items), s, eq)
    {
      if |items| > 0 && eq(items[|items| - 1].value, s.value) {
        var back := items[|items| - 1];
        items := items[|items| - 1 := back.(reported := s.reported)];
        return false;
      }
      items := items + [s];
      if |items| > MAX_ITEM {
        items := items[1..];
      }
      return true;
    }

    /** The newest item alone, or nothing. */
    method GetItemInReport() returns (out: seq<Item<T>>)
      ensures out == Last(items, 1)
    {
      out := [];
      if |items| >= 1 {
        out := out + [items[|items| - 1]];
      }
    }
  }
}
