/**
 Two in-place routines that bring an observable list in line with a new snapshot while keeping the
 rows that stay.  The list logs its change notifications, which is what a bound view sees.
 */
module ViewModel {
  import opened Common

  datatype Change<T> = Moved(from: nat, to: nat, item: T) | Inserted(index: nat, item: T) | Removed(index: nat, item: T)

  /** The notification describes a change this list can undergo. */
  predicate Fits<T(==)>(c: Change<T>, s: seq<T>) {
    match c
    case Moved(from, to, item) => from < |s| && to < |s| && s[from] == item
    case Inserted(index, item) => index <= |s|
    case Removed(index, item) => index < |s| && s[index] == item
  }

  /** A move takes the item out and puts it back at its new index. */
  function After<T(==)>(c: Change<T>, s: seq<T>): seq<T>
    requires Fits(c, s)
  {
    match c
    case Moved(from, to, item) => var rest := s[..from] + s[from + 1..]; rest[..to] + [item] + rest[to..]
    case Inserted(index, item) => s[..index] + [item] + s[index..]
    case Removed(index, item) => s[..index] + s[index + 1..]
  }

  /** What a view that applies the notifications one by one ends up with. */
  function Replay<T(==)>(changes: seq<Change<T>>, s: seq<T>): Option<seq<T>> {
    if changes == [] then Some(s)
    else
      var n := |changes| - 1;
      match Replay(changes[..n], s)
      case None => None
      case Some(t) => if Fits(changes[n], t) then Some(After(changes[n], t)) else None
  }

  lemma ReplaySnoc<T>(changes: seq<Change<T>>, s: seq<T>, c: Change<T>)
    requires Replay(changes, s).Some? && Fits(c, Replay(changes, s).value)
    ensures Replay(changes + [c], s) == Some(After(c, Replay(changes, s).value))
  {
    assert (changes + [c])[..|changes|] == changes;
  }

  class ObservableCollection<T(==)> {
    var items: seq<T>
    ghost var log: seq<Change<T>>

    constructor (items: seq<T>)
      ensures this.items == items && log == []
    {
      this.items := items;
      log := [];
    }

    method IndexOf(item: T) returns (index: int)
      ensures item !in items ==> index == -1
      ensures item in items ==> 0 <= index < |items| && items[index] == item && item !in items[..index]
    {
      index := 0;
      while index < |items|
        invariant 0 <= index <= |items| && item !in items[..index]
      {
        if items[index] == item {
          return;
        }
        index := index + 1;
      }
      assert items[..|items|] == items;
      index := -1;
    }

    method Insert(index: nat, item: T)
      requires index <= |items|
      modifies this
      ensures items == After(Inserted(index, item), old(items)) && log == old(log) + [Inserted(index, item)]
    {
      items := items[..index] + [item] + items[index..];
      log := log + [Inserted(index, item)];
    }

    method RemoveAt(index: nat)
      requires index < |items|
      modifies this
      ensures items == After(Removed(index, old(items)[index]), old(items))
      ensures log == old(log) + [Removed(index, old(items)[index])]
    {
      log := log + [Removed(index, items[index])];
      items := items[..index] + items[index + 1..];
    }

    method Move(from: nat, to: nat)
      requires from < |items| && to < |items|
      modifies this
      ensures items == After(Moved(from, to, old(items)[from]), old(items))
      ensures log == old(log) + [Moved(from, to, old(items)[from])]
    {
      var item := items[from];
      log := log + [Moved(from, to, item)];
      items := items[..from] + items[from + 1..];
      items := items[..to] + [item] + items[to..];
    }
  }

  /** Insertions bring in only new rows, removals take away only rows that are not wanted, and moves
      concern rows that stay: no row that stays is ever taken out and created again. */
  ghost predicate KeepsRows<T>(changes: seq<Change<T>>, before: seq<T>, target: seq<T>) {
    forall c :: c in changes ==>
      match c
      case Moved(_, _, x) => x in before && x in target
      case Inserted(_, x) => x !in before && x in target
      case Removed(_, x) => x in before && x !in target
  }

  /** Every removal is of the last item. */
  ghost predicate TailRemovals<T>(changes: seq<Change<T>>, before: seq<T>) {
    forall k :: 0 <= k < |changes| && changes[k].Removed? ==>
      Replay(changes[..k], before).Some? && changes[k].index + 1 == |Replay(changes[..k], before).value|
  }

  lemma TailRemovalsSnoc<T>(changes: seq<Change<T>>, before: seq<T>, c: Change<T>)
    requires TailRemovals(changes, before) && Replay(changes, before).Some?
    requires c.Removed? ==> c.index + 1 == |Replay(changes, before).value|
    ensures TailRemovals(changes + [c], before)
  {
    hide Replay;
    var longer := changes + [c];
    forall k | 0 <= k < |longer| && longer[k].Removed?
      ensures Replay(longer[..k], before).Some? && longer[k].index + 1 == |Replay(longer[..k], before).value|
    {
      assert longer[..k] == if k < |changes| then changes[..k] else changes;
    }
  }

  ghost predicate Elements<T(!new)>(s: seq<T>, before: seq<T>, target: seq<T>, n: nat)
    requires n <= |target|
  {
    forall x :: x in s <==> x in before || x in target[..n]
  }

  lemma MoveShape<T>(s: seq<T>, from: nat, to: nat)
    requires to <= from < |s|
    ensures After(Moved(from, to, s[from]), s) == s[..to] + [s[from]] + s[to..from] + s[from + 1..]
  {
    var rest := s[..from] + s[from + 1..];
    assert rest[..to] == s[..to];
    assert rest[to..] == s[to..from] + s[from + 1..];
    assert After(Moved(from, to, s[from]), s) == rest[..to] + [s[from]] + rest[to..];
    assert s[..to] + [s[from]] + (s[to..from] + s[from + 1..]) == s[..to] + [s[from]] + s[to..from] + s[from + 1..];
  }

  lemma MovedToFront<T(!new)>(s: seq<T>, from: nat, to: nat)
    requires to <= from < |s|
    ensures var t := After(Moved(from, to, s[from]), s);
            |t| == |s| && t[..to + 1] == s[..to] + [s[from]]
            && (forall x :: x in t <==> x in s) && (Distinct(s) ==> Distinct(t))
  {
    MoveShape(s, from, to);
    hide After;
    var t := s[..to] + [s[from]] + s[to..from] + s[from + 1..];
    var source := (i: int) => if i < to then i else if i == to then from else if i <= from then i - 1 else i;
    assert forall i :: 0 <= i < |t| ==> t[i] == s[source(i)];
    forall x | x in s ensures x in t {
      var i :| 0 <= i < |s| && s[i] == x;
      assert t[if i < to then i else if i < from then i + 1 else if i == from then to else i] == x;
    }
  }

  lemma InsertedAt<T(!new)>(s: seq<T>, index: nat, item: T)
    requires index <= |s| && item !in s
    ensures var t := After(Inserted(index, item), s);
            && t[..index + 1] == s[..index] + [item]
            && (forall x :: x in t <==> x in s || x == item) && (Distinct(s) ==> Distinct(t))
  {
    var t := After(Inserted(index, item), s);
    assert s == s[..index] + s[index..];
    assert t == s[..index] + [item] + s[index..];
    hide After;
    assert forall i :: 0 <= i < |t| ==> t[i] == if i < index then s[i] else if i == index then item else s[i - 1];
  }

  /** What one turn of the first loop establishes about the list and the changes so far. */
  ghost predicate Synced<T(!new)>(s: seq<T>, changes: seq<Change<T>>, before: seq<T>, target: seq<T>, n: nat) {
    && n <= |target| && n <= |s| && s[..n] == target[..n]
    && Elements(s, before, target, n)
    && (Distinct(before) ==> Distinct(s) && KeepsRows(changes, before, target))
    && Replay(changes, before) == Some(s) && TailRemovals(changes, before)
  }

  lemma Grow<T(!new)>(target: seq<T>, n: nat)
    requires Distinct(target) && n < |target|
    ensures target[..n + 1] == target[..n] + [target[n]] && target[n] !in target[..n]
    ensures forall x :: x in target[..n + 1] <==> x in target[..n] || x == target[n]
  {
  }

  lemma SyncedInPlace<T(!new)>(s: seq<T>, changes: seq<Change<T>>, before: seq<T>, target: seq<T>, n: nat)
    requires Synced(s, changes, before, target, n) && Distinct(target) && n < |target| && n < |s| && s[n] == target[n]
    ensures Synced(s, changes, before, target, n + 1)
  {
    hide Replay, TailRemovals;
    Grow(target, n);
    assert s[..n + 1] == s[..n] + [s[n]] && s[n] in s;
  }

  lemma SyncedByMove<T(!new)>(s: seq<T>, changes: seq<Change<T>>, before: seq<T>, target: seq<T>, n: nat, from: nat)
    requires Synced(s, changes, before, target, n) && Distinct(target) && n < |target|
    requires from < |s| && s[from] == target[n]
    ensures n <= from
    ensures var c := Moved(from, n, s[from]);
            Synced(After(c, s), changes + [c], before, target, n + 1)
  {
    Grow(target, n);
    assert forall k :: 0 <= k < n ==> s[k] == s[..n][k] == target[..n][k];
    MovedToFront(s, from, n);
    assert s[from] in s;
    ReplaySnoc(changes, before, Moved(from, n, s[from]));
    TailRemovalsSnoc(changes, before, Moved(from, n, s[from]));
    hide Distinct, Replay, TailRemovals, After;
  }

  lemma SyncedByInsert<T(!new)>(s: seq<T>, changes: seq<Change<T>>, before: seq<T>, target: seq<T>, n: nat)
    requires Synced(s, changes, before, target, n) && Distinct(target) && n < |target| && target[n] !in s
    ensures var c := Inserted(n, target[n]);
            Synced(After(c, s), changes + [c], before, target, n + 1)
  {
    Grow(target, n);
    InsertedAt(s, n, target[n]);
    ReplaySnoc(changes, before, Inserted(n, target[n]));
    TailRemovalsSnoc(changes, before, Inserted(n, target[n]));
    assert |After(Inserted(n, target[n]), s)| == |s| + 1;
    hide Distinct, Replay, TailRemovals, After;
  }

  /** One turn of the first loop: position `index` gets its target item. */
  method Place<T(==, !new)>(collection: ObservableCollection<T>, target: seq<T>, index: nat, ghost before: seq<T>,
                            ghost changes: seq<Change<T>>) returns (ghost added: seq<Change<T>>)
    requires Distinct(target) && index < |target|
    requires Synced(collection.items, changes, before, target, index)
    modifies collection
    ensures collection.log == old(collection.log) + added
    ensures Synced(collection.items, changes + added, before, target, index + 1)
  {
    hide Synced, Distinct, After;
    ghost var items := collection.items;
    var item := target[index];
    SyncedLength(items, changes, before, target, index);
    if index < |collection.items| && collection.items[index] == item {
      SyncedInPlace(items, changes, before, target, index);
      assert changes + [] == changes;
      return [];
    }
    var existing := collection.IndexOf(item);
    if existing >= 0 {
      SyncedByMove(items, changes, before, target, index, existing);
      collection.Move(existing, index);
      added := [Moved(existing, index, item)];
    } else {
      SyncedByInsert(items, changes, before, target, index);
      collection.Insert(index, item);
      added := [Inserted(index, item)];
    }
  }

  /** Turns any collection into exactly the target.  Replaying the notifications does the same; they
      are moves, insertions and removals of the last item; and in a duplicate-free collection no row
      that stays is taken out and created again. */
  method SynchronizeCollection<T(==, !new)>(collection: ObservableCollection<T>, target: seq<T>)
    returns (ghost changes: seq<Change<T>>)
    requires Distinct(target)
    modifies collection
    ensures collection.items == target && collection.log == old(collection.log) + changes
    ensures Replay(changes, old(collection.items)) == Some(target) && TailRemovals(changes, old(collection.items))
    ensures Distinct(old(collection.items)) ==> KeepsRows(changes, old(collection.items), target)
  {
    hide Synced, Distinct, KeepsRows, Replay, TailRemovals;
    ghost var before := collection.items;
    SyncedAtStart(before, target);
    changes := [];
    for index := 0 to |target|
      invariant collection.log == old(collection.log) + changes
      invariant Synced(collection.items, changes, before, target, index)
    {
      ghost var added := Place(collection, target, index, before, changes);
      changes := changes + added;
    }
    ghost var removed := RemoveTail(collection, before, target, changes);
    changes := changes + removed;
  }

  lemma SyncedAtStart<T(!new)>(before: seq<T>, target: seq<T>)
    ensures Synced(before, [], before, target, 0)
  {
  }

  lemma SyncedLength<T(!new)>(s: seq<T>, changes: seq<Change<T>>, before: seq<T>, target: seq<T>, n: nat)
    requires Synced(s, changes, before, target, n)
    ensures n <= |s|
  {
  }

  /** While the second loop runs: the target, then rows still to go. */
  ghost predicate Trimming<T(!new)>(s: seq<T>, changes: seq<Change<T>>, before: seq<T>, target: seq<T>) {
    && |s| >= |target| && s[..|target|] == target
    && (forall x :: x in s ==> x in before || x in target)
    && (Distinct(before) ==> Distinct(s) && KeepsRows(changes, before, target))
    && Replay(changes, before) == Some(s) && TailRemovals(changes, before)
  }

  lemma TrimmedOnce<T(!new)>(s: seq<T>, changes: seq<Change<T>>, before: seq<T>, target: seq<T>)
    requires Trimming(s, changes, before, target) && |s| > |target|
    ensures var c := Removed(|s| - 1, s[|s| - 1]);
            Fits(c, s) && Trimming(After(c, s), changes + [c], before, target)
  {
    var last := |s| - 1;
    var c := Removed(last, s[last]);
    ReplaySnoc(changes, before, c);
    TailRemovalsSnoc(changes, before, c);
    assert After(c, s) == s[..last] && s[..last][..|target|] == s[..|target|];
    assert s[last] in s;
    if Distinct(before) {
      LastIsUnwanted(s, target);
    }
    hide Replay, TailRemovals;
  }

  /** The second loop: removes the last item while there are too many. */
  method RemoveTail<T(==, !new)>(collection: ObservableCollection<T>, ghost before: seq<T>, target: seq<T>,
                                 ghost changes: seq<Change<T>>) returns (ghost added: seq<Change<T>>)
    requires Synced(collection.items, changes, before, target, |target|)
    modifies collection
    ensures collection.items == target && collection.log == old(collection.log) + added
    ensures Replay(changes + added, before) == Some(target) && TailRemovals(changes + added, before)
    ensures Distinct(before) ==> KeepsRows(changes + added, before, target)
  {
    hide Replay, TailRemovals, KeepsRows, After, Trimming, Synced, Distinct;
    added := [];
    assert changes + [] == changes;
    TrimmingStarts(collection.items, changes, before, target);
    while |collection.items| > |target|
      invariant Trimming(collection.items, changes + added, before, target)
      invariant collection.log == old(collection.log) + added
      decreases |collection.items|
    {
      ghost var c := Removed(|collection.items| - 1, collection.items[|collection.items| - 1]);
      TrimmedOnce(collection.items, changes + added, before, target);
      RemovedLength(c, collection.items);
      assert changes + added + [c] == changes + (added + [c]);
      collection.RemoveAt(|collection.items| - 1);
      added := added + [c];
    }
    TrimmingEnds(collection.items, changes + added, before, target);
  }

  lemma TrimmingStarts<T(!new)>(s: seq<T>, changes: seq<Change<T>>, before: seq<T>, target: seq<T>)
    requires Synced(s, changes, before, target, |target|)
    ensures Trimming(s, changes, before, target)
  {
    hide Replay, TailRemovals, KeepsRows;
    assert target[..|target|] == target;
  }

  lemma TrimmingEnds<T(!new)>(s: seq<T>, changes: seq<Change<T>>, before: seq<T>, target: seq<T>)
    requires Trimming(s, changes, before, target) && |s| <= |target|
    ensures s == target && Replay(changes, before) == Some(target) && TailRemovals(changes, before)
    ensures Distinct(before) ==> KeepsRows(changes, before, target)
  {
    hide Replay, TailRemovals, KeepsRows;
    assert s[..|target|] == s;
  }

  lemma RemovedLength<T>(c: Change<T>, s: seq<T>)
    requires c.Removed? && Fits(c, s)
    ensures |After(c, s)| == |s| - 1
  {
  }

  lemma LastIsUnwanted<T>(items: seq<T>, target: seq<T>)
    requires Distinct(items) && |items| > |target| && items[..|target|] == target
    ensures items[|items| - 1] !in target
  {
    forall i | 0 <= i < |target| ensures target[i] != items[|items| - 1] {
      assert items[i] == target[i];
    }
  }

  // ---------- Membership only ----------

  /** The members of `s` that are wanted, in their old order. */
  function Kept<T(==)>(s: seq<T>, wanted: set<T>): seq<T> {
    if s == [] then []
    else (if s[0] in wanted then [s[0]] else []) + Kept(s[1..], wanted)
  }

  /** The first occurrence of each target item that is not visible yet, in target order. */
  function Missing<T(==)>(target: seq<T>, visible: set<T>): seq<T> {
    if target == [] then []
    else if target[0] in visible then Missing(target[1..], visible)
    else [target[0]] + Missing(target[1..], visible + {target[0]})
  }

  /** Survivors keep their relative order; missing items are appended in target order. */
  method SynchronizeMembership<T(==, !new)>(collection: ObservableCollection<T>, target: seq<T>)
    modifies collection
    ensures var kept := Kept(old(collection.items), set x | x in target);
            collection.items == kept + Missing(target, set x | x in kept)
  {
    var wanted := set x | x in target;
    ghost var before := collection.items;
    var index := |collection.items|;
    assert before[..index] == before && before[index..] == [];
    while index > 0
      invariant 0 <= index <= |before|
      invariant collection.items == before[..index] + Kept(before[index..], wanted)
    {
      index := index - 1;
      assert before[index..][1..] == before[index + 1..] && before[index..][0] == before[index];
      assert before[..index + 1] == before[..index] + [before[index]];
      if collection.items[index] !in wanted {
        collection.RemoveAt(index);
      }
    }
    var visible := set x | x in collection.items;
    ghost var kept, start := collection.items, visible;
    assert before[0..] == before;
    for i := 0 to |target|
      invariant collection.items + Missing(target[i..], visible) == kept + Missing(target, start)
    {
      assert target[i..][1..] == target[i + 1..];
      if target[i] !in visible {
        visible := visible + {target[i]};
        collection.Insert(|collection.items|, target[i]);
      }
    }
    assert target[|target|..] == [];
    assert kept == Kept(before, wanted) && start == set x | x in kept;
  }

  lemma {:induction false} KeptExact<T(!new)>(s: seq<T>, wanted: set<T>)
    ensures forall x :: x in Kept(s, wanted) <==> x in s && x in wanted
    ensures Distinct(s) ==> Distinct(Kept(s, wanted))
  {
    if s != [] {
      KeptExact(s[1..], wanted);
      assert s == [s[0]] + s[1..];
    }
  }

  lemma {:induction false} MissingExact<T(!new)>(target: seq<T>, visible: set<T>)
    ensures forall x :: x in Missing(target, visible) <==> x in target && x !in visible
    ensures Distinct(Missing(target, visible))
    ensures Distinct(target) ==> Missing(target, visible) == Kept(target, (set x | x in target) - visible)
  {
    if target != [] {
      assert target == [target[0]] + target[1..];
      MissingExact(target[1..], visible);
      MissingExact(target[1..], visible + {target[0]});
      if Distinct(target) {
        assert target[0] !in target[1..];
        KeptSame(target[1..], (set x | x in target) - visible, (set x | x in target[1..]) - visible);
        KeptSame(target[1..], (set x | x in target) - visible, (set x | x in target[1..]) - (visible + {target[0]}));
      }
    }
  }

  lemma {:induction false} KeptSame<T(!new)>(s: seq<T>, a: set<T>, b: set<T>)
    requires forall x :: x in s ==> (x in a <==> x in b)
    ensures Kept(s, a) == Kept(s, b)
  {
    if s != [] {
      assert forall x :: x in s[1..] ==> x in s;
      KeptSame(s[1..], a, b);
    }
  }

  /** The result has exactly the target's members, and is duplicate-free if the collection was. */
  lemma MembershipExact<T(!new)>(before: seq<T>, target: seq<T>)
    ensures var kept := Kept(before, set x | x in target);
            var after := kept + Missing(target, set x | x in kept);
            && (forall x :: x in after <==> x in target)
            && (Distinct(before) ==> Distinct(after))
            && (Distinct(target) ==> after == kept + Kept(target, (set x | x in target) - (set x | x in before)))
  {
    var kept := Kept(before, set x | x in target);
    KeptExact(before, set x | x in target);
    var visible := set x | x in kept;
    MissingExact(target, visible);
    var missing := Missing(target, visible);
    if Distinct(before) {
      forall i, j | 0 <= i < |kept| && 0 <= j < |missing| ensures kept[i] != missing[j] {
        assert kept[i] in visible && missing[j] in missing;
      }
    }
    if Distinct(target) {
      KeptSame(target, (set x | x in target) - visible, (set x | x in target) - (set x | x in before));
    }
  }
}
