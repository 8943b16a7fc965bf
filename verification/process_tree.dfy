/**
 Terminating a process tree: a frontier search over a snapshot of (pid, parent pid) entries, which
 may name missing parents and form cycles, followed by termination in reverse discovery order.
 */
module ProcessTree {
  import opened Common

  const MAXIMUM_DESCENDANTS: nat := 4_096
  const MAXIMUM_ENTRIES: nat := 65_536

  datatype Entry = Entry(pid: nat, parent: nat)

  /** System pids up to 4 are never children. */
  ghost predicate Edge(entries: seq<Entry>, parent: nat, child: nat) {
    child > 4 && Entry(child, parent) in entries
  }

  ghost predicate Path(entries: seq<Entry>, p: seq<nat>) {
    p != [] && forall i :: 0 <= i < |p| - 1 ==> Edge(entries, p[i], p[i + 1])
  }

  ghost predicate Reaches(entries: seq<Entry>, root: nat, x: nat) {
    exists p :: Path(entries, p) && p[0] == root && p[|p| - 1] == x
  }

  ghost function Elements(s: seq<nat>): set<nat> {
    set x | x in s
  }

  /** d[i] was found below the root or below something found earlier. */
  ghost predicate Discovered(entries: seq<Entry>, root: nat, d: seq<nat>, i: nat)
    requires i < |d|
  {
    exists parent :: Edge(entries, parent, d[i]) && (parent == root || parent in d[..i])
  }

  /** Every edge out of v, seen among the first n entries, has been followed. */
  ghost predicate Followed(entries: seq<Entry>, n: nat, v: nat, visited: set<nat>)
    requires n <= |entries|
  {
    forall i :: 0 <= i < n && entries[i].parent == v && entries[i].pid > 4 ==> entries[i].pid in visited
  }

  ghost predicate Search(entries: seq<Entry>, root: nat, d: seq<nat>, visited: set<nat>) {
    && Distinct(d) && root !in d && visited == Elements(d) + {root} && |d| <= MAXIMUM_DESCENDANTS
    && (forall x :: x in d ==> x in Pids(entries))
    && forall i :: 0 <= i < |d| ==> Discovered(entries, root, d, i)
  }

  ghost function Pids(entries: seq<Entry>): set<nat> {
    set e | e in entries :: e.pid
  }

  lemma SearchGrows(entries: seq<Entry>, root: nat, d: seq<nat>, visited: set<nat>, parent: nat, child: nat)
    requires Search(entries, root, d, visited) && |d| < MAXIMUM_DESCENDANTS
    requires Edge(entries, parent, child) && parent in visited && child !in visited
    ensures Search(entries, root, d + [child], visited + {child})
  {
    var d' := d + [child];
    assert Entry(child, parent) in entries && Entry(child, parent).pid == child;
    forall i | 0 <= i < |d'| ensures Discovered(entries, root, d', i) {
      if i < |d| {
        assert Discovered(entries, root, d, i) && d'[..i] == d[..i];
        var p :| Edge(entries, p, d[i]) && (p == root || p in d[..i]);
        assert Edge(entries, p, d'[i]);
      } else {
        assert d'[..i] == d && Edge(entries, parent, d'[i]) && (parent == root || parent in d);
      }
    }
    assert Elements(d') == Elements(d) + {child};
  }

  /** The entries an enumeration contributes. */
  function Listed(enumeration: seq<Entry>): seq<Entry> {
    if |enumeration| <= MAXIMUM_ENTRIES then enumeration else enumeration[..MAXIMUM_ENTRIES]
  }

  /** The snapshot loop: at most 65,536 entries are taken from the enumeration. */
  method Snapshot(enumeration: seq<Entry>) returns (entries: seq<Entry>)
    ensures entries == Listed(enumeration)
  {
    entries := [];
    while |entries| < |enumeration| && |entries| < MAXIMUM_ENTRIES
      invariant |entries| <= |enumeration| && |entries| <= MAXIMUM_ENTRIES && entries == enumeration[..|entries|]
    {
      entries := entries + [enumeration[|entries|]];
    }
  }

  /** Follows the entries once for one popped parent. */
  method Expand(entries: seq<Entry>, ghost root: nat, parent: nat, d0: seq<nat>, f0: seq<nat>, v0: set<nat>)
    returns (d: seq<nat>, f: seq<nat>, visited: set<nat>)
    requires Search(entries, root, d0, v0) && parent in v0 && Elements(f0) <= v0 && |d0| < MAXIMUM_DESCENDANTS
    ensures Search(entries, root, d, visited) && Elements(f) <= visited && v0 <= visited
    ensures visited - Elements(f) <= v0 - Elements(f0) && f0 <= f
    ensures |d| < MAXIMUM_DESCENDANTS ==> Followed(entries, |entries|, parent, visited)
    ensures visited == v0 ==> f == f0
  {
    d, f, visited := d0, f0, v0;
    for i := 0 to |entries|
      invariant Search(entries, root, d, visited) && Elements(f) <= visited && v0 <= visited
      invariant visited - Elements(f) <= v0 - Elements(f0) && f0 <= f
      invariant |d| < MAXIMUM_DESCENDANTS
      invariant Followed(entries, i, parent, visited)
      invariant visited == v0 ==> f == f0
    {
      var child := entries[i].pid;
      if entries[i].parent == parent && child > 4 && child !in visited {
        assert entries[i] == Entry(child, parent);
        SearchGrows(entries, root, d, visited, parent, child);
        assert Elements(f + [child]) == Elements(f) + {child};
        visited := visited + {child};
        d := d + [child];
        f := f + [child];
        if |d| >= MAXIMUM_DESCENDANTS {
          break;
        }
      }
    }
  }

  /** The whole search.  Below the cap it finds exactly what is reachable, each pid once. */
  method Descendants(entries: seq<Entry>, root: nat) returns (d: seq<nat>)
    ensures Distinct(d) && root !in d && |d| <= MAXIMUM_DESCENDANTS
    ensures forall i :: 0 <= i < |d| ==> Discovered(entries, root, d, i)
    ensures forall x :: x in d ==> Reaches(entries, root, x)
    ensures |d| < MAXIMUM_DESCENDANTS ==> forall x :: x in d <==> x != root && Reaches(entries, root, x)
  {
    d := [];
    var frontier := [root];
    var visited := {root};
    while frontier != []
      invariant Search(entries, root, d, visited) && Elements(frontier) <= visited
      invariant |d| < MAXIMUM_DESCENDANTS
      invariant forall v :: v in visited - Elements(frontier) ==> Followed(entries, |entries|, v, visited)
      decreases Pids(entries) - visited, |frontier|
    {
      var parent, rest := frontier[|frontier| - 1], frontier[..|frontier| - 1];
      assert Elements(frontier) == Elements(rest) + {parent};
      ghost var before := visited;
      d, frontier, visited := Expand(entries, root, parent, d, rest, visited);
      if |d| >= MAXIMUM_DESCENDANTS {
        break;
      }
      FollowedStays(entries, root, d, before, visited);
    }
    forall x | x in d ensures Reaches(entries, root, x) {
      DiscoveredReaches(entries, root, d, x);
    }
    if |d| < MAXIMUM_DESCENDANTS {
      forall x | Reaches(entries, root, x) ensures x in visited {
        var p :| Path(entries, p) && p[0] == root && p[|p| - 1] == x;
        ClosedPath(entries, root, visited, p);
      }
    }
  }

  lemma FollowedStays(entries: seq<Entry>, root: nat, d: seq<nat>, before: set<nat>, visited: set<nat>)
    requires before <= visited && Search(entries, root, d, visited)
    ensures forall v :: Followed(entries, |entries|, v, before) ==> Followed(entries, |entries|, v, visited)
    ensures before < visited && root in before ==> Pids(entries) - visited < Pids(entries) - before
  {
    if before < visited && root in before {
      var x :| x in visited && x !in before;
      assert x in d && x in Pids(entries) - before;
    }
  }

  lemma {:induction false} ClosedPath(entries: seq<Entry>, root: nat, visited: set<nat>, p: seq<nat>)
    requires root in visited && Path(entries, p) && p[0] == root
    requires forall v :: v in visited ==> Followed(entries, |entries|, v, visited)
    ensures p[|p| - 1] in visited
  {
    if |p| > 1 {
      var q := p[..|p| - 1];
      assert Path(entries, q);
      ClosedPath(entries, root, visited, q);
      var parent, child := q[|q| - 1], p[|p| - 1];
      assert Edge(entries, p[|p| - 2], p[|p| - 2 + 1]);
      var i :| 0 <= i < |entries| && entries[i] == Entry(child, parent);
      assert Followed(entries, |entries|, parent, visited);
    }
  }

  lemma DiscoveredReaches(entries: seq<Entry>, root: nat, d: seq<nat>, x: nat)
    requires x in d && forall i :: 0 <= i < |d| ==> Discovered(entries, root, d, i)
    ensures Reaches(entries, root, x)
  {
    var i :| 0 <= i < |d| && d[i] == x;
    IndexReaches(entries, root, d, i);
  }

  lemma {:induction false} IndexReaches(entries: seq<Entry>, root: nat, d: seq<nat>, i: nat)
    requires i < |d| && forall j :: 0 <= j < |d| ==> Discovered(entries, root, d, j)
    ensures Reaches(entries, root, d[i])
  {
    assert Discovered(entries, root, d, i);
    var parent :| Edge(entries, parent, d[i]) && (parent == root || parent in d[..i]);
    var p: seq<nat>;
    if parent == root {
      p := [root];
    } else {
      var j :| 0 <= j < i && d[j] == parent;
      IndexReaches(entries, root, d, j);
      p :| Path(entries, p) && p[0] == root && p[|p| - 1] == parent;
    }
    var q := p + [d[i]];
    assert Path(entries, q) && q[0] == root && q[|q| - 1] == d[i];
  }

  // ---------- Termination order ----------

  function Reversed(s: seq<nat>): (r: seq<nat>)
    ensures |r| == |s| && forall i :: 0 <= i < |s| ==> r[i] == s[|s| - 1 - i]
  {
    if s == [] then [] else [s[|s| - 1]] + Reversed(s[..|s| - 1])
  }

  /** The pids whose identity still checks out and whose termination succeeds. */
  function Controlled(s: seq<nat>, controllable: nat -> bool): seq<nat> {
    if s == [] then []
    else Controlled(s[..|s| - 1], controllable) + (if controllable(s[|s| - 1]) then [s[|s| - 1]] else [])
  }

  ghost predicate Precedes(s: seq<nat>, x: nat, y: nat) {
    exists i, j :: 0 <= i < j < |s| && s[i] == x && s[j] == y
  }

  /** One entry per process, as in a consistent snapshot. */
  ghost predicate OneParent(entries: seq<Entry>) {
    forall i, j :: 0 <= i < j < |entries| ==> entries[i].pid != entries[j].pid
  }

  lemma SameParent(entries: seq<Entry>, child: nat, p: nat, q: nat)
    requires OneParent(entries) && Entry(child, p) in entries && Entry(child, q) in entries
    ensures p == q
  {
    var a :| 0 <= a < |entries| && entries[a] == Entry(child, p);
    var b :| 0 <= b < |entries| && entries[b] == Entry(child, q);
  }

  /** With or without the cap, every descendant is terminated before its parent, and the root last. */
  lemma ChildrenFirst(entries: seq<Entry>, root: nat, d: seq<nat>, child: nat, parent: nat)
    requires OneParent(entries) && forall i :: 0 <= i < |d| ==> Discovered(entries, root, d, i)
    requires child in d && Entry(child, parent) in entries
    ensures Precedes(Reversed(d) + [root], child, parent)
  {
    hide OneParent, Reversed, Precedes;
    var order := Reversed(d) + [root];
    var i :| 0 <= i < |d| && d[i] == child;
    assert Discovered(entries, root, d, i);
    var p :| Edge(entries, p, child) && (p == root || p in d[..i]);
    SameParent(entries, child, p, parent);
    var x := |d| - 1 - i;
    assert order[x] == child;
    if parent == root {
      PrecedesAt(order, x, |d|);
    } else {
      var j :| 0 <= j < |d[..i]| && d[..i][j] == parent;
      assert order[|d| - 1 - j] == parent;
      PrecedesAt(order, x, |d| - 1 - j);
    }
  }

  lemma PrecedesAt(s: seq<nat>, i: nat, j: nat)
    requires i < j < |s|
    ensures Precedes(s, s[i], s[j])
  {
  }

  lemma {:induction false} ControlledMembers(s: seq<nat>, controllable: nat -> bool, x: nat)
    ensures x in Controlled(s, controllable) <==> x in s && controllable(x)
  {
    if s != [] {
      var n := |s| - 1;
      ControlledMembers(s[..n], controllable, x);
      assert x in s <==> x in s[..n] || x == s[n];
    }
  }

  /** Skipping processes never reorders the rest. */
  lemma {:induction false} ControlledOrder(s: seq<nat>, controllable: nat -> bool, x: nat, y: nat)
    requires Precedes(s, x, y) && controllable(x) && controllable(y)
    ensures Precedes(Controlled(s, controllable), x, y)
  {
    var n := |s| - 1;
    var i, j :| 0 <= i < j < |s| && s[i] == x && s[j] == y;
    var before := Controlled(s[..n], controllable);
    if j < n {
      assert s[..n][i] == x && s[..n][j] == y;
      ControlledOrder(s[..n], controllable, x, y);
      var a, b :| 0 <= a < b < |before| && before[a] == x && before[b] == y;
      assert Controlled(s, controllable)[a] == x && Controlled(s, controllable)[b] == y;
    } else {
      assert s[..n][i] == x;
      ControlledMembers(s[..n], controllable, x);
      var a :| 0 <= a < |before| && before[a] == x;
      assert Controlled(s, controllable)[a] == x && Controlled(s, controllable)[|before|] == y;
    }
  }

  lemma ControlledNext(s: seq<nat>, k: nat, controllable: nat -> bool)
    requires k < |s|
    ensures Controlled(s[..k + 1], controllable) ==
            Controlled(s[..k], controllable) + (if controllable(s[k]) then [s[k]] else [])
  {
    assert s[..k + 1][..k] == s[..k];
  }

  lemma ControlledLast(s: seq<nat>, x: nat, controllable: nat -> bool)
    ensures Controlled(s + [x], controllable) ==
            Controlled(s[..|s|], controllable) + (if controllable(x) then [x] else [])
  {
    assert (s + [x])[..|s|] == s == s[..|s|];
  }

  datatype Outcome =
    | Terminated(affected: seq<nat>, skipped: nat)
    | RootFailed(affected: seq<nat>)
    | NotStarted(affected: seq<nat>)

  /** Among the processes actually terminated every child comes before its parent. */
  ghost predicate ChildrenBeforeParents(entries: seq<Entry>, root: nat, affected: seq<nat>) {
    forall child, parent :: child in affected && parent in affected && child != root && Entry(child, parent) in entries ==>
      Precedes(affected, child, parent)
  }

  lemma TerminationOrder(entries: seq<Entry>, root: nat, d: seq<nat>, controllable: nat -> bool)
    requires OneParent(entries) && forall i :: 0 <= i < |d| ==> Discovered(entries, root, d, i)
    ensures ChildrenBeforeParents(entries, root, Controlled(Reversed(d) + [root], controllable))
  {
    hide Discovered, OneParent, Precedes;
    var order := Reversed(d) + [root];
    var affected := Controlled(order, controllable);
    forall child, parent | child in affected && parent in affected && child != root && Entry(child, parent) in entries
      ensures Precedes(affected, child, parent)
    {
      ControlledMembers(order, controllable, child);
      ControlledMembers(order, controllable, parent);
      ReversedMembers(d, child);
      ChildrenFirst(entries, root, d, child, parent);
      ControlledOrder(order, controllable, child, parent);
    }
  }

  lemma ReversedMembers(d: seq<nat>, x: nat)
    ensures x in Reversed(d) <==> x in d
  {
    if x in d {
      var i :| 0 <= i < |d| && d[i] == x;
      assert Reversed(d)[|d| - 1 - i] == x;
    }
  }

  /** The termination loop over the descendants, last found first. */
  method TerminateDescendants(found: seq<nat>, controllable: nat -> bool) returns (affected: seq<nat>, skipped: nat)
    ensures affected == Controlled(Reversed(found), controllable) && |affected| + skipped == |found|
  {
    var order := Reversed(found);
    affected, skipped := [], 0;
    assert Controlled(order[..0], controllable) == [];
    hide Controlled;
    var i := |found|;
    while i > 0
      invariant 0 <= i <= |found| && |affected| + skipped == |found| - i
      invariant affected == Controlled(order[..|found| - i], controllable)
    {
      i := i - 1;
      var child := found[i];
      ControlledNext(order, |found| - i - 1, controllable);
      if controllable(child) {
        affected := affected + [child];
      } else {
        skipped := skipped + 1;
      }
    }
    assert order[..|found|] == order;
  }

  /** Terminates in reverse discovery order.  A root that is not the expected process, or an
      enumeration that fails, ends it before anything is terminated; a root that cannot be terminated
      is an error after its descendants were. */
  method TerminateProcessTree(enumeration: Option<seq<Entry>>, root: nat, expected: bool, controllable: nat -> bool)
    returns (r: Outcome, ghost d: seq<nat>)
    ensures r.NotStarted? <==> !expected || enumeration.None?
    ensures r.NotStarted? ==> r.affected == []
    ensures !r.NotStarted? ==>
              var entries := Listed(enumeration.value);
              && Distinct(d) && root !in d && (forall i :: 0 <= i < |d| ==> Discovered(entries, root, d, i))
              && (|d| < MAXIMUM_DESCENDANTS ==> forall x :: x in d <==> x != root && Reaches(entries, root, x))
              && (r.Terminated? <==> controllable(root))
              && r.affected == Controlled(Reversed(d) + [root], controllable)
              && (OneParent(entries) ==> ChildrenBeforeParents(entries, root, r.affected))
    ensures r.Terminated? ==>
              |r.affected| + r.skipped == |d| + 1 && r.affected[|r.affected| - 1] == root
  {
    hide Discovered, Reaches, Distinct, Controlled, ChildrenBeforeParents, OneParent, Listed;
    d := [];
    if !expected || enumeration.None? {
      return NotStarted([]), d;
    }
    var entries := Snapshot(enumeration.value);
    var found := Descendants(entries, root);
    var affected, skipped := TerminateDescendants(found, controllable);
    ControlledLast(Reversed(found), root, controllable);
    assert Reversed(found)[..|Reversed(found)|] == Reversed(found);
    d := found;
    if OneParent(entries) {
      TerminationOrder(entries, root, found, controllable);
    }
    if !controllable(root) {
      return RootFailed(affected), found;
    }
    r := Terminated(affected + [root], skipped);
  }
}
