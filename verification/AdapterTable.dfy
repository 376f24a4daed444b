/** The modem API's table of adapters: a fixed array kept without holes. */
module AdapterTable {

  const MAX_ADAPTERS: nat := 10

  /** An adapter pointer; the null pointer is 0. */
  type Adapter = int

  const NULL: Adapter := 0

  /** Messages to the modem thread: open with the current event mask, or close. */
  datatype Message = Open | Close

  // ----- the table as the sequence its iteration visits -------------------------------------

  /** The entries before the first null pointer. */
  function Live(table: seq<Adapter>): seq<Adapter> {
    if table == [] || table[0] == NULL then [] else [table[0]] + Live(table[1..])
  }

  predicate NoDuplicates(live: seq<Adapter>) {
    forall i, j :: 0 <= i < j < |live| ==> live[i] != live[j]
  }

  /** All entries are in a prefix, and none is there twice. */
  predicate Compact(table: seq<Adapter>) {
    (forall i :: |Live(table)| <= i < |table| ==> table[i] == NULL) && NoDuplicates(Live(table))
  }

  lemma {:induction false} LivePrefix(table: seq<Adapter>)
    ensures |Live(table)| <= |table| && Live(table) == table[..|Live(table)|]
    ensures forall i :: 0 <= i < |Live(table)| ==> table[i] != NULL
    ensures |Live(table)| < |table| ==> table[|Live(table)|] == NULL
  {
    if table != [] && table[0] != NULL {
      LivePrefix(table[1..]);
      assert forall i :: 1 <= i < |table| ==> table[i] == table[1..][i - 1];
    }
  }

  lemma {:induction false} LiveIs(table: seq<Adapter>, n: nat)
    requires n <= |table|
    requires forall i :: 0 <= i < n ==> table[i] != NULL
    requires n < |table| ==> table[n] == NULL
    ensures Live(table) == table[..n]
  {
    if n > 0 {
      LiveIs(table[1..], n - 1);
      assert table[..n] == [table[0]] + table[1..][..n - 1];
    }
  }

  /** Moving the last live entry to `j` and clearing its place. */
  lemma FillHole(before: seq<Adapter>, j: nat, last: Adapter)
    requires Compact(before) && j < |Live(before)| <= |before|
    requires var n := |Live(before)| - 1; last == if j == n then NULL else before[n]
    ensures var n := |Live(before)| - 1; var after := before[j := last][n := NULL];
      Compact(after) && Live(after) == RemoveAt(Live(before), j)
  {
    var n := |Live(before)| - 1;
    var after := before[j := last][n := NULL];
    LivePrefix(before);
    LiveIs(after, n);
    assert after[..n] == RemoveAt(Live(before), j);
  }

  // ----- the operations -------------------------------------------------------------------------

  function Add(live: seq<Adapter>, a: Adapter): seq<Adapter> {
    if a == NULL || a in live || |live| == MAX_ADAPTERS then live else live + [a]
  }

  /** The last entry takes the place of the removed one. */
  function RemoveAt(live: seq<Adapter>, j: nat): seq<Adapter>
    requires j < |live|
  {
    live[j := live[|live| - 1]][..|live| - 1]
  }

  function IndexOf(live: seq<Adapter>, a: Adapter): (j: nat)
    requires a in live
    ensures j < |live| && live[j] == a && a !in live[..j]
  {
    if live[0] == a then 0
    else
      var j := IndexOf(live[1..], a) + 1;
      assert live[..j] == [live[0]] + live[1..][..j - 1];
      j
  }

  function Remove(live: seq<Adapter>, a: Adapter): seq<Adapter> {
    if a in live then RemoveAt(live, IndexOf(live, a)) else live
  }

  function Messages(before: seq<Adapter>, after: seq<Adapter>): seq<Message> {
    if before == after then [] else if after == [] then [Close] else [Open]
  }

  datatype Event = AddAdapter(adapter: Adapter) | RemoveAdapter(adapter: Adapter)

  function Next(live: seq<Adapter>, e: Event): seq<Adapter> {
    match e case AddAdapter(a) => Add(live, a) case RemoveAdapter(a) => Remove(live, a)
  }

  function Run(es: seq<Event>): seq<Adapter> {
    if es == [] then [] else Next(Run(es[..|es| - 1]), es[|es| - 1])
  }

  // ----- against a plain set ----------------------------------------------------------------------

  /** The same commands on a set of at most ten. */
  function SetRun(es: seq<Event>): set<Adapter> {
    if es == [] then {}
    else
      var s := SetRun(es[..|es| - 1]);
      match es[|es| - 1]
      case AddAdapter(a) => if a != NULL && |s| < 10 then s + {a} else s
      case RemoveAdapter(a) => s - {a}
  }

  function Elements(live: seq<Adapter>): set<Adapter> { set a | a in live }

  lemma {:induction false} ElementCount(live: seq<Adapter>)
    requires NoDuplicates(live)
    ensures |Elements(live)| == |live|
  {
    if live != [] {
      var rest := live[1..];
      ElementCount(rest);
      assert live == [live[0]] + rest && live[0] !in rest;
      assert Elements(live) == Elements(rest) + {live[0]};
    }
  }

  lemma RemoveExact(live: seq<Adapter>, a: Adapter)
    requires NoDuplicates(live)
    ensures NoDuplicates(Remove(live, a)) && Elements(Remove(live, a)) == Elements(live) - {a}
    ensures |Remove(live, a)| <= |live|
  {
    if a in live {
      var j, n := IndexOf(live, a), |live| - 1;
      var after := RemoveAt(live, j);
      assert forall i :: 0 <= i < n ==> after[i] == if i == j then live[n] else live[i];
      forall x | x in live && x != a ensures x in after {
        var i :| 0 <= i < |live| && live[i] == x;
        assert i != j && after[if i == n then j else i] == x;
      }
    }
  }

  /** Over every run of adds and removes the table holds exactly the set's members, each once. */
  lemma {:induction false} TableIsSet(es: seq<Event>)
    ensures NoDuplicates(Run(es)) && |Run(es)| <= 10 && NULL !in Run(es)
    ensures Elements(Run(es)) == SetRun(es)
  {
    if es != [] {
      var live, e := Run(es[..|es| - 1]), es[|es| - 1];
      TableIsSet(es[..|es| - 1]);
      ElementCount(live);
      match e
      case AddAdapter(a) =>
        assert a in live <==> a in Elements(live);
        assert Elements(live + [a]) == Elements(live) + {a};
      case RemoveAdapter(a) =>
        RemoveExact(live, a);
        assert NULL !in Elements(Remove(live, a));
    }
  }

  /** The modem connection is closed exactly when the last adapter goes. */
  lemma CloseIffEmptied(es: seq<Event>, e: Event)
    ensures Close in Messages(Run(es), Run(es + [e])) <==> SetRun(es) != {} && SetRun(es + [e]) == {}
  {
    TableIsSet(es);
    TableIsSet(es + [e]);
    assert Run(es) != [] <==> Elements(Run(es)) != {} by {
      assert Run(es) != [] ==> Run(es)[0] in Elements(Run(es));
    }
    assert Run(es + [e]) != [] <==> Elements(Run(es + [e])) != {} by {
      assert Run(es + [e]) != [] ==> Run(es + [e])[0] in Elements(Run(es + [e]));
    }
  }

  lemma ElementsDiffer(live: seq<Adapter>, after: seq<Adapter>, a: Adapter)
    requires a in live <==> a !in after
    ensures live != after && Elements(live) != Elements(after)
  {
    assert a in Elements(live) <==> a !in Elements(after);
  }

  /** An add or remove sends one message exactly if it changes the set: close if nobody is left, and
      otherwise open, with the new mask. */
  lemma MessagesExact(es: seq<Event>, e: Event)
    ensures var before, after := SetRun(es), SetRun(es + [e]);
      Messages(Run(es), Run(es + [e])) == if before == after then [] else if after == {} then [Close] else [Open]
  {
    assert (es + [e])[..|es + [e]| - 1] == es;
    TableIsSet(es);
    TableIsSet(es + [e]);
    CloseIffEmptied(es, e);
    var live, after := Run(es), Run(es + [e]);
    if live != after {
      assert e.AddAdapter? ==> after == live + [e.adapter];
      assert e.RemoveAdapter? ==> e.adapter !in Elements(after);
      ElementsDiffer(live, after, e.adapter);
    }
  }

  /** A new adapter comes last; where one leaves, the last one takes its place; all others keep theirs, so
      that the calls go on asking them in the same order. */
  lemma PlacesKept(es: seq<Event>, e: Event)
    ensures var before, after := Run(es), Run(es + [e]);
      if SetRun(es) == SetRun(es + [e]) then after == before
      else if e.AddAdapter? then |after| == |before| + 1 && after[..|before|] == before && after[|before|] == e.adapter
      else |after| == |before| - 1
           && forall i :: 0 <= i < |after| ==>
                after[i] == if before[i] == e.adapter then before[|before| - 1] else before[i]
  {
    assert (es + [e])[..|es + [e]| - 1] == es;
    TableIsSet(es);
    TableIsSet(es + [e]);
    if Run(es) != Run(es + [e]) && e.RemoveAdapter? {
      var j := IndexOf(Run(es), e.adapter);
      assert forall i :: 0 <= i < |Run(es)| && Run(es)[i] == e.adapter ==> i == j;
    }
    MessagesExact(es, e);
  }

  // ----- the class --------------------------------------------------------------------------------

  /** An event mask as the set of its bits. */
  type Mask = set<nat>

  class LocApiBase {
    const adapters: array<Adapter>
    const excludedMask: Mask
    var messages: seq<Message>

    ghost predicate Valid() reads this, adapters {
      adapters.Length == MAX_ADAPTERS && Compact(adapters[..])
    }

    ghost function View(): seq<Adapter> reads this, adapters { Live(adapters[..]) }

    constructor (excludedMask: Mask)
      ensures Valid() && View() == [] && messages == [] && fresh(adapters)
    {
      adapters := new Adapter[MAX_ADAPTERS](_ => NULL);
      this.excludedMask := excludedMask;
      messages := [];
    }

    method AddAdapter(adapter: Adapter)
      requires Valid()
      modifies this, adapters
      ensures Valid() && View() == Add(old(View()), adapter)
      ensures messages == old(messages) + Messages(old(View()), View())
    {
      ghost var before := adapters[..];
      LivePrefix(before);
      var i := 0;
      while i < MAX_ADAPTERS && adapters[i] != adapter
        invariant 0 <= i <= |Live(before)| || (i == MAX_ADAPTERS && |Live(before)| == MAX_ADAPTERS)
        invariant adapters[..] == before && messages == old(messages)
        invariant adapter !in before[..i]
      {
        if adapters[i] == NULL {
          adapters[i] := adapter;
          messages := messages + [Open];
          LiveIs(adapters[..], i + 1);
          assert adapters[..][..i + 1] == Live(before) + [adapter];
          return;
        }
        i := i + 1;
      }
    }

    method RemoveAdapter(adapter: Adapter)
      requires Valid()
      modifies this, adapters
      ensures Valid() && View() == Remove(old(View()), adapter)
      ensures messages == old(messages) + Messages(old(View()), View())
    {
      ghost var before := adapters[..];
      ghost var live := Live(before);
      LivePrefix(before);
      var i := 0;
      while i < MAX_ADAPTERS && adapters[i] != NULL
        invariant 0 <= i <= MAX_ADAPTERS
        invariant (adapters[..] == before && messages == old(messages) && i <= |live| && adapter !in live[..i])
          || (adapter in live && Compact(adapters[..]) && Live(adapters[..]) == Remove(live, adapter)
              && messages == old(messages) + (if Remove(live, adapter) == [] then [Close] else [Open])
              && (i < MAX_ADAPTERS ==> adapters[i] == NULL))
      {
        if adapters[i] == adapter {
          assert live[i] == adapter && IndexOf(live, adapter) == i;
          i := TakeOut(i);
        }
        i := i + 1;
      }
    }

    /** Moves the last entry into the hole at `j`; the result is the index it came from. */
    method TakeOut(j: nat) returns (i: nat)
      requires Valid() && j < |View()|
      modifies this, adapters
      ensures Valid() && View() == RemoveAt(old(View()), j)
      ensures messages == old(messages) + if View() == [] then [Close] else [Open]
      ensures i == |old(View())| - 1 && (i + 1 < MAX_ADAPTERS ==> adapters[i + 1] == NULL)
    {
      ghost var before := adapters[..];
      ghost var live := Live(before);
      LivePrefix(before);
      adapters[j] := NULL;
      i := j + 1;
      while i < MAX_ADAPTERS && adapters[i] != NULL
        invariant j < i <= |live| && adapters[..] == before[j := NULL]
      {
        i := i + 1;
      }
      i := i - 1;
      ghost var last := if i == j then NULL else before[i];
      adapters[j] := adapters[i];
      adapters[i] := NULL;
      assert adapters[..] == before[j := last][i := NULL];
      FillHole(before, j, last);
      if i == 0 {
        messages := messages + [Close];
      } else {
        messages := messages + [Open];
      }
    }

    /** The null-terminated iteration over all adapters. */
    method GetEvtMask(maskOf: Adapter -> Mask) returns (mask: Mask)
      requires Valid()
      ensures forall bit :: bit in mask <==> bit !in excludedMask && exists a :: a in View() && bit in maskOf(a)
    {
      LivePrefix(adapters[..]);
      mask := {};
      var i := 0;
      while i < MAX_ADAPTERS && adapters[i] != NULL
        invariant 0 <= i <= |View()|
        invariant forall bit :: bit in mask <==> exists a :: a in View()[..i] && bit in maskOf(a)
      {
        assert View()[..i + 1] == View()[..i] + [adapters[i]];
        mask := mask + maskOf(adapters[i]);
        i := i + 1;
      }
      assert View()[..i] == View();
      mask := mask - excludedMask;
    }

    /** The iteration that stops at the first adapter to handle a call. */
    method FirstHandling(handles: Adapter -> bool) returns (asked: seq<Adapter>)
      requires Valid()
      ensures asked <= View()
      ensures forall k :: 0 <= k < |asked| - 1 ==> !handles(asked[k])
      ensures asked != View() ==> asked != [] && handles(asked[|asked| - 1])
    {
      LivePrefix(adapters[..]);
      asked := [];
      var i := 0;
      while i < MAX_ADAPTERS && adapters[i] != NULL
        invariant 0 <= i <= |View()| && asked == View()[..i]
        invariant forall k :: 0 <= k < i ==> !handles(View()[k])
      {
        asked := asked + [adapters[i]];
        if handles(adapters[i]) {
          return;
        }
        i := i + 1;
      }
    }
  }
}
