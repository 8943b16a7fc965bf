/**
 The file monitor: watcher events drained in batches, a metadata baseline, and reconciliation by
 enumeration after a detected gap.  Hash maps are visited in an arbitrary order, fixed by a
 parameter.
 */
module FileMonitor {
  import opened Common

  const FILE_EVENT_CAPACITY: nat := 4_096

  type Path = string

  datatype Fingerprint = Fingerprint(length: nat, modified: nat)

  type Files = map<Path, Fingerprint>

  datatype Action = Created | Modified | Removed | Changed

  datatype Activity = Activity(action: Action, path: Path, reconciliation: bool)

  datatype Checkpoint = Checkpoint(journalId: nat, firstUsn: int, nextUsn: int)

  /** Some order in which a hash map with these keys is visited. */
  type Ordering = set<Path> -> seq<Path>

  ghost predicate Visits(order: seq<Path>, keys: set<Path>) {
    Distinct(order) && forall p :: p in order <==> p in keys
  }

  ghost predicate IsOrdering(visit: Ordering) {
    forall keys :: Visits(visit(keys), keys)
  }

  // ---------- The difference of two enumerations ----------

  function Min(a: nat, b: nat): nat { if a <= b then a else b }

  /** What a visitor of paths reports about each. */
  type Reporter = Path -> Option<Activity>

  function ChangeSince(old': Files, current: Files): Reporter {
    p => if p !in current || (p in old' && old'[p] == current[p]) then None
         else Some(Activity(if p in old' then Modified else Created, p, true))
  }

  function RemovalFrom(current: Files): Reporter {
    p => if p in current then None else Some(Activity(Removed, p, true))
  }

  /** The reports made while visiting paths in order. */
  function Report(f: Reporter, order: seq<Path>): seq<Activity> {
    if order == [] then []
    else
      var n := |order| - 1;
      Report(f, order[..n]) + (match f(order[n]) case Some(e) => [e] case None => [])
  }

  function Difference(old': Files, current: Files, order: seq<Path>, oldOrder: seq<Path>): seq<Activity> {
    Report(ChangeSince(old', current), order) + Report(RemovalFrom(current), oldOrder)
  }

  function Take(s: seq<Activity>, n: nat): seq<Activity> {
    if |s| <= n then s else s[..n]
  }

  /** `update_baseline`, with the metadata on disk as a map. */
  function UpdateBaseline(baseline: Files, events: seq<Activity>, disk: Files): Files {
    if events == [] then baseline
    else
      var before, e := UpdateBaseline(baseline, events[..|events| - 1], disk), events[|events| - 1];
      if e.action == Removed then before - {e.path}
      else if e.path in disk then before[e.path := disk[e.path]]
      else before
  }

  // ---------- Facts about the difference ----------

  ghost predicate Faithful(f: Reporter) {
    forall p :: f(p).Some? ==> f(p).value.path == p
  }

  lemma {:induction false} ReportPrefix(f: Reporter, order: seq<Path>, i: nat)
    requires i <= |order|
    ensures Report(f, order[..i]) <= Report(f, order)
  {
    if i < |order| {
      ReportPrefix(f, order[..|order| - 1], i);
      assert order[..|order| - 1][..i] == order[..i];
    } else {
      assert order[..i] == order;
    }
  }

  lemma ReportNext(f: Reporter, order: seq<Path>, i: nat)
    requires i < |order|
    ensures Report(f, order[..i + 1]) ==
            Report(f, order[..i]) + (match f(order[i]) case Some(e) => [e] case None => [])
  {
    assert order[..i + 1][..i] == order[..i];
  }

  lemma {:induction false} ReportMembers(f: Reporter, order: seq<Path>)
    ensures forall e :: e in Report(f, order) ==> exists p :: p in order && f(p) == Some(e)
    ensures forall p :: p in order && f(p).Some? ==> f(p).value in Report(f, order)
  {
    if order != [] {
      var n := |order| - 1;
      ReportMembers(f, order[..n]);
      assert order == order[..n] + [order[n]];
    }
  }

  ghost predicate DistinctPaths(r: seq<Activity>) {
    forall i, j :: 0 <= i < j < |r| ==> r[i].path != r[j].path
  }

  lemma {:induction false} ReportDistinct(f: Reporter, order: seq<Path>)
    requires Distinct(order) && Faithful(f)
    ensures DistinctPaths(Report(f, order))
  {
    if order != [] {
      var n := |order| - 1;
      ReportDistinct(f, order[..n]);
      ReportMembers(f, order[..n]);
      var r := Report(f, order[..n]);
      forall i | 0 <= i < |r| ensures r[i].path != order[n] {
        assert r[i] in r;
        var p :| p in order[..n] && f(p) == Some(r[i]);
      }
      assert f(order[n]).Some? ==> f(order[n]).value.path == order[n];
    }
  }

  lemma {:induction false} ReportSize(f: Reporter, order: seq<Path>)
    requires Distinct(order)
    ensures |Report(f, order)| == |set p | p in order && f(p).Some?|
  {
    var all := set p | p in order && f(p).Some?;
    if order == [] {
      assert all == {};
    } else {
      var n := |order| - 1;
      ReportSize(f, order[..n]);
      var before := set p | p in order[..n] && f(p).Some?;
      assert forall p :: p in order <==> p in order[..n] || p == order[n];
      assert order[n] !in order[..n];
      hide Distinct;
      if f(order[n]).Some? {
        assert all == before + {order[n]};
      } else {
        assert all == before;
      }
    }
  }

  /** The paths on which two enumerations differ. */
  ghost function DiffPaths(old': Files, current: Files): set<Path> {
    (set p | p in current && (p !in old' || old'[p] != current[p])) + (set p | p in old' && p !in current)
  }

  ghost predicate Describes(e: Activity, old': Files, current: Files) {
    && e.path in DiffPaths(old', current) && e.reconciliation && e.action != Changed
    && (e.action == Created <==> e.path !in old')
    && (e.action == Removed <==> e.path !in current)
  }

  lemma ChangesDescribe(old': Files, current: Files, order: seq<Path>)
    requires Visits(order, current.Keys)
    ensures var c := Report(ChangeSince(old', current), order);
            && |c| == |set p | p in current && (p !in old' || old'[p] != current[p])| && DistinctPaths(c)
            && forall e :: e in c ==> Describes(e, old', current) && e.path in current
  {
    var f := ChangeSince(old', current);
    ReportSize(f, order);
    ReportDistinct(f, order);
    ReportMembers(f, order);
    assert (set p | p in order && f(p).Some?) == (set p | p in current && (p !in old' || old'[p] != current[p]));
    forall e | e in Report(f, order) ensures Describes(e, old', current) && e.path in current {
      var p :| p in order && f(p) == Some(e);
    }
  }

  lemma RemovalsDescribe(old': Files, current: Files, oldOrder: seq<Path>)
    requires Visits(oldOrder, old'.Keys)
    ensures var r := Report(RemovalFrom(current), oldOrder);
            && |r| == |set p | p in old' && p !in current| && DistinctPaths(r)
            && forall e :: e in r ==> Describes(e, old', current) && e.path !in current
  {
    var g := RemovalFrom(current);
    ReportSize(g, oldOrder);
    ReportDistinct(g, oldOrder);
    ReportMembers(g, oldOrder);
    assert (set p | p in oldOrder && g(p).Some?) == (set p | p in old' && p !in current);
    forall e | e in Report(g, oldOrder) ensures Describes(e, old', current) && e.path !in current {
      var p :| p in oldOrder && g(p) == Some(e);
    }
  }

  /** Whatever the visiting order: one event per differing path, with the right action. */
  lemma DifferenceExact(old': Files, current: Files, order: seq<Path>, oldOrder: seq<Path>)
    requires Visits(order, current.Keys) && Visits(oldOrder, old'.Keys)
    ensures var d := Difference(old', current, order, oldOrder);
            && |d| == |DiffPaths(old', current)| && DistinctPaths(d)
            && (forall e :: e in d ==> Describes(e, old', current))
  {
    hide Report, Describes, Visits;
    ChangesDescribe(old', current, order);
    RemovalsDescribe(old', current, oldOrder);
    var c, r := Report(ChangeSince(old', current), order), Report(RemovalFrom(current), oldOrder);
    assert (set p | p in current && (p !in old' || old'[p] != current[p])) !! (set p | p in old' && p !in current);
    forall i, j | 0 <= i < |c| && 0 <= j < |r| ensures c[i].path != r[j].path {
      assert c[i] in c && r[j] in r;
    }
  }

  lemma {:induction false} UpdateConcat(baseline: Files, a: seq<Activity>, b: seq<Activity>, disk: Files)
    ensures UpdateBaseline(baseline, a + b, disk) == UpdateBaseline(UpdateBaseline(baseline, a, disk), b, disk)
  {
    if b == [] {
      assert a + b == a;
    } else {
      var n := |b| - 1;
      UpdateConcat(baseline, a, b[..n], disk);
      assert (a + b)[..|a + b| - 1] == a + b[..n];
    }
  }

  ghost predicate Agree(a: Files, b: Files, p: Path) {
    (p in a <==> p in b) && (p in a ==> a[p] == b[p])
  }

  lemma ReplayOne(m: Files, events: seq<Activity>, e: Activity, disk: Files, p: Path)
    ensures var u, v := UpdateBaseline(m, events, disk), UpdateBaseline(m, events + [e], disk);
            if p != e.path then Agree(v, u, p)
            else if e.action == Removed then p !in v
            else if p in disk then Agree(v, disk, p) else v == u
  {
    assert (events + [e])[..|events|] == events;
  }

  /** The effect of replayed reports on one path. */
  lemma {:induction false} ReplayAt(m: Files, f: Reporter, order: seq<Path>, disk: Files, p: Path)
    requires Faithful(f)
    ensures var u := UpdateBaseline(m, Report(f, order), disk);
            if p in order && f(p).Some? then
              if f(p).value.action == Removed then p !in u
              else if p in disk then Agree(u, disk, p) else Agree(u, m, p)
            else Agree(u, m, p)
  {
    if order != [] {
      var n := |order| - 1;
      ReplayAt(m, f, order[..n], disk, p);
      assert p in order <==> p in order[..n] || p == order[n];
      var r := Report(f, order[..n]);
      if f(order[n]).Some? {
        assert f(order[n]).value.path == order[n];
        assert Report(f, order) == r + [f(order[n]).value];
        ReplayOne(m, r, f(order[n]).value, disk, p);
      } else {
        assert Report(f, order) == r;
      }
      hide UpdateBaseline, Report;
    }
  }

  lemma ReplayBoth(old': Files, current: Files, order: seq<Path>, oldOrder: seq<Path>, p: Path)
    requires Visits(order, current.Keys) && Visits(oldOrder, old'.Keys)
    ensures var m := UpdateBaseline(old', Report(ChangeSince(old', current), order), current);
            Agree(UpdateBaseline(m, Report(RemovalFrom(current), oldOrder), current), current, p)
  {
    hide UpdateBaseline, Report;
    var f, g := ChangeSince(old', current), RemovalFrom(current);
    ReplayAt(old', f, order, current, p);
    ReplayAt(UpdateBaseline(old', Report(f, order), current), g, oldOrder, current, p);
  }

  /** Replaying the whole difference rebuilds the new baseline from the old one. */
  lemma DifferenceReplays(old': Files, current: Files, order: seq<Path>, oldOrder: seq<Path>)
    requires Visits(order, current.Keys) && Visits(oldOrder, old'.Keys)
    ensures UpdateBaseline(old', Difference(old', current, order, oldOrder), current) == current
  {
    var f, g := ChangeSince(old', current), RemovalFrom(current);
    UpdateConcat(old', Report(f, order), Report(g, oldOrder), current);
    hide UpdateBaseline, Report;
    var m := UpdateBaseline(old', Report(f, order), current);
    var u := UpdateBaseline(m, Report(g, oldOrder), current);
    forall p ensures Agree(u, current, p) {
      ReplayBoth(old', current, order, oldOrder, p);
    }
    assert u.Keys == current.Keys by {
      forall p ensures p in u <==> p in current { assert Agree(u, current, p); }
    }
    forall p | p in u ensures u[p] == current[p] { assert Agree(u, current, p); }
  }

  /** What one reconciliation with room for `limit` events reports. */
  lemma ReconcileReports(old': Files, current: Files, visit: Ordering, limit: nat, events: seq<Activity>)
    requires IsOrdering(visit) && limit >= 1
    requires events == Take(Difference(old', current, visit(current.Keys), visit(old'.Keys)), limit)
    ensures |events| == Min(limit, |DiffPaths(old', current)|)
    ensures DistinctPaths(events) && forall e :: e in events ==> Describes(e, old', current)
    ensures |DiffPaths(old', current)| <= limit ==> UpdateBaseline(old', events, current) == current
  {
    hide Difference, UpdateBaseline, Describes;
    assert Visits(visit(current.Keys), current.Keys) && Visits(visit(old'.Keys), old'.Keys);
    DifferenceExact(old', current, visit(current.Keys), visit(old'.Keys));
    DifferenceReplays(old', current, visit(current.Keys), visit(old'.Keys));
  }

  /** Whether the first path visited is reported. */
  predicate FirstReported(f: Reporter, order: seq<Path>) {
    order != [] && f(order[0]).Some?
  }

  lemma ReportAtMostOne(f: Reporter, order: seq<Path>)
    ensures |Report(f, order[..Min(1, |order|)])| == if FirstReported(f, order) then 1 else 0
  {
    if order != [] { assert order[..1][..0] == []; }
  }

  // ---------- Draining over time ----------

  /** One drain: whether it saw a gap, had a baseline, and reconciled. */
  datatype Round = Round(gap: bool, ready: bool, reconciled: bool)

  ghost function PendingAfter(rounds: seq<Round>): bool {
    rounds != [] &&
    var last := rounds[|rounds| - 1];
    (last.gap || PendingAfter(rounds[..|rounds| - 1])) && !last.reconciled
  }

  ghost predicate LegalRounds(rounds: seq<Round>) {
    rounds == [] ||
    var before, last := rounds[..|rounds| - 1], rounds[|rounds| - 1];
    && LegalRounds(before)
    && last.reconciled == (last.ready && (last.gap || PendingAfter(before)))
    && (before != [] && before[|before| - 1].ready ==> last.ready)
  }

  ghost predicate GapOpen(rounds: seq<Round>, j: nat, n: nat)
    requires j < |rounds| && n <= |rounds|
  {
    j < n && rounds[j].gap && forall k :: j <= k < n ==> !rounds[k].reconciled
  }

  lemma {:induction false} PendingIsOpenGap(rounds: seq<Round>)
    ensures PendingAfter(rounds) <==> exists j :: 0 <= j < |rounds| && GapOpen(rounds, j, |rounds|)
  {
    if rounds != [] {
      var n := |rounds| - 1;
      var before, last := rounds[..n], rounds[n];
      PendingIsOpenGap(before);
      if PendingAfter(rounds) {
        if last.gap {
          assert GapOpen(rounds, n, |rounds|);
        } else {
          var j :| 0 <= j < n && GapOpen(before, j, n);
          assert forall k :: j <= k < n ==> rounds[k] == before[k];
          assert GapOpen(rounds, j, |rounds|);
        }
      }
      if j :| 0 <= j < |rounds| && GapOpen(rounds, j, |rounds|) {
        assert !rounds[n].reconciled;
        if j < n {
          assert forall k :: j <= k < n ==> before[k] == rounds[k];
          assert GapOpen(before, j, n);
        }
      }
    }
  }

  lemma {:induction false} LegalPrefix(rounds: seq<Round>, n: nat)
    requires LegalRounds(rounds) && n <= |rounds|
    ensures LegalRounds(rounds[..n])
  {
    if n < |rounds| {
      LegalPrefix(rounds[..|rounds| - 1], n);
      assert rounds[..|rounds| - 1][..n] == rounds[..n];
    } else {
      assert rounds[..n] == rounds;
    }
  }

  /** A drain reconciles exactly when the baseline is ready and some gap, seen then or earlier, has
      not been reconciled since. */
  lemma GapsAreNotLost(rounds: seq<Round>, n: nat)
    requires LegalRounds(rounds) && n < |rounds|
    ensures rounds[n].reconciled <==>
            rounds[n].ready && (rounds[n].gap || exists j :: 0 <= j < n && GapOpen(rounds, j, n))
  {
    LegalPrefix(rounds, n + 1);
    assert rounds[..n + 1][..n] == rounds[..n];
    PendingIsOpenGap(rounds[..n]);
    forall j | 0 <= j < n ensures GapOpen(rounds, j, n) <==> GapOpen(rounds[..n], j, n) {
      assert forall k :: 0 <= k < n ==> rounds[..n][k] == rounds[k];
    }
  }

  lemma ExtendRounds(rounds: seq<Round>, r: Round)
    ensures LegalRounds(rounds + [r]) <==>
            && LegalRounds(rounds)
            && r.reconciled == (r.ready && (r.gap || PendingAfter(rounds)))
            && (rounds != [] && rounds[|rounds| - 1].ready ==> r.ready)
    ensures PendingAfter(rounds + [r]) == ((r.gap || PendingAfter(rounds)) && !r.reconciled)
  {
    assert (rounds + [r])[..|rounds|] == rounds;
  }

  // ---------- The monitor ----------

  function Clamp(limit: nat): nat {
    if limit < 1 then 1 else if limit > FILE_EVENT_CAPACITY then FILE_EVENT_CAPACITY else limit
  }

  /** Events drained before the baseline is ready are kept up to the capacity. */
  function Kept(prebaseline: seq<Activity>, batch: seq<Activity>): (r: seq<Activity>)
    requires |prebaseline| <= FILE_EVENT_CAPACITY
    ensures |r| <= FILE_EVENT_CAPACITY
  {
    prebaseline + batch[..Min(FILE_EVENT_CAPACITY - |prebaseline|, |batch|)]
  }

  function JournalChanged(previous: Option<Checkpoint>, current: Option<Checkpoint>): bool {
    previous.Some? && current.Some? &&
    (previous.value.journalId != current.value.journalId || current.value.firstUsn > previous.value.nextUsn)
  }

  /** The baseline a drain starts from: the worker's, with the events drained meanwhile, once it is there. */
  function Base(ready: bool, baseline: Files, prebaseline: seq<Activity>, arrived: Option<Files>, disk: Files): Files {
    if !ready && arrived.Some? then UpdateBaseline(arrived.value, prebaseline, disk) else baseline
  }

  /** The records a drain returns for one batch. */
  function Returned(base: Files, batch: seq<Activity>, limit: nat, reconcile: bool, current: Files, visit: Ordering): seq<Activity> {
    if !reconcile then batch
    else if |batch| < limit then
      batch + Take(Difference(base, current, visit(current.Keys), visit(base.Keys)), limit - |batch|)
    else
      batch + Report(ChangeSince(base, current), visit(current.Keys)[..Min(1, |visit(current.Keys)|)])
  }

  /** When more than `limit` records are returned: at limit 0 one record is still drained, and a full
      batch leaves a reconciliation with room for nothing, which still reports a first difference. */
  predicate OverLimit(base: Files, batch: seq<Activity>, limit: nat, reconcile: bool, current: Files, visit: Ordering) {
    || (limit == 0 && batch != [])
    || (reconcile && |batch| >= limit && FirstReported(ChangeSince(base, current), visit(current.Keys)))
  }

  /** The documented bound, "at most `limit` records", fails exactly then, and by how much. */
  lemma LimitExact(base: Files, batch: seq<Activity>, limit: nat, reconcile: bool, current: Files, visit: Ordering)
    requires |batch| <= Clamp(limit)
    ensures var events := Returned(base, batch, limit, reconcile, current, visit);
            && (|events| > limit <==> OverLimit(base, batch, limit, reconcile, current, visit))
            && |events| <= (if limit == 0 then 2 else limit + 1)
  {
    hide Difference, Report, FirstReported;
    ReportAtMostOne(ChangeSince(base, current), visit(current.Keys));
  }

  datatype Drained = Drained(events: seq<Activity>, reconciled: bool, journalChanged: bool)

  class Monitor {
    var receiver: seq<Activity>
    var baseline: Files
    var baselineReady: bool
    var prebaseline: seq<Activity>
    var pendingReconcile: bool
    var previousDropped: nat
    var checkpoint: Option<Checkpoint>
    ghost var rounds: seq<Round>

    ghost predicate Valid()
      reads this
    {
      && LegalRounds(rounds)
      && pendingReconcile == PendingAfter(rounds)
      && baselineReady == (rounds != [] && rounds[|rounds| - 1].ready)
      && |prebaseline| <= FILE_EVENT_CAPACITY
    }

    constructor (checkpoint: Option<Checkpoint>)
      ensures Valid() && receiver == [] && rounds == []
      ensures baseline == map[] && !baselineReady && prebaseline == [] && !pendingReconcile && previousDropped == 0
      ensures this.checkpoint == checkpoint
    {
      receiver, baseline, baselineReady, prebaseline := [], map[], false, [];
      pendingReconcile, previousDropped, this.checkpoint := false, 0, checkpoint;
      rounds := [];
    }

    /** The first loop: creations and modifications, until the limit is reached. */
    method ReportChanges(current: Files, order: seq<Path>, limit: nat) returns (events: seq<Activity>)
      requires forall p :: p in order ==> p in current
      ensures var all := Report(ChangeSince(baseline, current), order);
              events == if limit == 0 then Report(ChangeSince(baseline, current), order[..Min(1, |order|)]) else Take(all, limit)
    {
      ghost var f := ChangeSince(baseline, current);
      events := [];
      var i := 0;
      while i < |order|
        invariant i <= |order| && events == Report(f, order[..i])
        invariant if limit > 0 then |events| < limit else i == 0
      {
        ReportNext(f, order, i);
        var path := order[i];
        if path !in baseline {
          events := events + [Activity(Created, path, true)];
        } else if baseline[path] != current[path] {
          events := events + [Activity(Modified, path, true)];
        }
        i := i + 1;
        if |events| >= limit {
          break;
        }
      }
      ReportPrefix(f, order, i);
      assert order[..|order|] == order;
    }

    /** The second loop: removals, below the limit. */
    method ReportRemovals(current: Files, oldOrder: seq<Path>, before: seq<Activity>, limit: nat)
      returns (events: seq<Activity>)
      requires |before| < limit
      ensures events == Take(before + Report(RemovalFrom(current), oldOrder), limit)
    {
      ghost var g := RemovalFrom(current);
      events := before;
      assert Report(g, oldOrder[..0]) == [];
      var j := 0;
      while j < |oldOrder|
        invariant j <= |oldOrder| && events == before + Report(g, oldOrder[..j])
        invariant |events| < limit
      {
        ReportNext(g, oldOrder, j);
        var path := oldOrder[j];
        j := j + 1;
        if path !in current {
          events := events + [Activity(Removed, path, true)];
          if |events| >= limit {
            break;
          }
        }
      }
      ReportPrefix(g, oldOrder, j);
      assert oldOrder[..|oldOrder|] == oldOrder;
    }

    /** Replaces the baseline by an enumeration and reports the first `limit` differences.  A limit of
        zero still reports a difference in the first path visited. */
    method Reconcile(current: Files, visit: Ordering, limit: nat) returns (events: seq<Activity>)
      requires IsOrdering(visit)
      modifies this`baseline
      ensures baseline == current
      ensures var order, f := visit(current.Keys), ChangeSince(old(baseline), current);
              events == if limit == 0 then Report(f, order[..Min(1, |order|)])
                        else Take(Difference(old(baseline), current, order, visit(old(baseline).Keys)), limit)
    {
      hide Report;
      assert Visits(visit(current.Keys), current.Keys);
      var order, oldOrder := visit(current.Keys), visit(baseline.Keys);
      events := ReportChanges(current, order, limit);
      if |events| < limit {
        events := ReportRemovals(current, oldOrder, events, limit);
      }
      baseline := current;
    }

    /** Takes over the baseline worker's result, with the events drained meanwhile applied. */
    method AdoptBaseline(arrived: Option<Files>, disk: Files)
      modifies this`baseline, this`prebaseline, this`baselineReady
      ensures baselineReady == (old(baselineReady) || arrived.Some?)
      ensures baseline == Base(old(baselineReady), old(baseline), old(prebaseline), arrived, disk)
      ensures prebaseline == if !old(baselineReady) && arrived.Some? then [] else old(prebaseline)
    {
      if !baselineReady && arrived.Some? {
        baseline := UpdateBaseline(arrived.value, prebaseline, disk);
        prebaseline := [];
        baselineReady := true;
      }
    }

    /** What becomes of one drained batch: a reconciliation, an update, or a note for later. */
    method Settle(batch: seq<Activity>, limit: nat, reconcile: bool, disk: Files, current: Files, visit: Ordering)
      returns (events: seq<Activity>)
      requires IsOrdering(visit) && |batch| <= Clamp(limit) && |prebaseline| <= FILE_EVENT_CAPACITY
      modifies this`baseline, this`prebaseline
      ensures events == Returned(old(baseline), batch, limit, reconcile, current, visit)
      ensures |events| > limit <==> OverLimit(old(baseline), batch, limit, reconcile, current, visit)
      ensures |events| <= (if limit == 0 then 2 else limit + 1)
      ensures baseline == if reconcile then current
                          else if baselineReady then UpdateBaseline(old(baseline), batch, disk) else old(baseline)
      ensures prebaseline == if reconcile || baselineReady then old(prebaseline) else Kept(old(prebaseline), batch)
    {
      hide Difference, Report, IsOrdering, UpdateBaseline, OverLimit;
      LimitExact(baseline, batch, limit, reconcile, current, visit);
      events := batch;
      if reconcile {
        var differences := Reconcile(current, visit, if limit <= |batch| then 0 else limit - |batch|);
        events := batch + differences;
      } else if baselineReady {
        baseline := UpdateBaseline(baseline, batch, disk);
      } else {
        prebaseline := Kept(prebaseline, batch);
      }
    }

    /** Drains watcher events, adopts a finished baseline, and reconciles any detected gap.
        `arrived` is the baseline worker's result if it is ready; `disk` is what the metadata calls
        see and `current` what an enumeration sees. */
    method Drain(limit: nat, arrived: Option<Files>, dropped: nat, queried: Option<Checkpoint>, disk: Files,
                 current: Files, visit: Ordering) returns (r: Drained)
      requires Valid() && IsOrdering(visit)
      modifies this
      ensures Valid()
      ensures var changed := JournalChanged(old(checkpoint), queried);
              var gap, ready := dropped > old(previousDropped) || changed, old(baselineReady) || arrived.Some?;
              var reconcile := (old(pendingReconcile) || gap) && ready;
              var batch := old(receiver)[..Min(Clamp(limit), |old(receiver)|)];
              var base := Base(old(baselineReady), old(baseline), old(prebaseline), arrived, disk);
              var kept := if !old(baselineReady) && arrived.Some? then [] else old(prebaseline);
              && r == Drained(Returned(base, batch, limit, reconcile, current, visit), reconcile, changed)
              && (|r.events| > limit <==> OverLimit(base, batch, limit, reconcile, current, visit))
              && rounds == old(rounds) + [Round(gap, ready, reconcile)]
              && baselineReady == ready && pendingReconcile == ((old(pendingReconcile) || gap) && !ready)
              && receiver == old(receiver)[|batch|..]
              && baseline == (if reconcile then current else if ready then UpdateBaseline(base, batch, disk) else base)
              && |kept| <= FILE_EVENT_CAPACITY && prebaseline == (if ready then kept else Kept(kept, batch))
      ensures previousDropped == dropped && checkpoint == (if queried.Some? then queried else old(checkpoint))
      ensures |r.events| <= (if limit == 0 then 2 else limit + 1)
    {
      hide LegalRounds, PendingAfter, IsOrdering, UpdateBaseline, JournalChanged, Returned, OverLimit, Base, Kept;
      var n := Min(Clamp(limit), |receiver|);
      var batch := receiver[..n];
      receiver := receiver[n..];
      AdoptBaseline(arrived, disk);
      var journalChanged := JournalChanged(checkpoint, queried);
      var gap := dropped > previousDropped || journalChanged;
      if gap {
        pendingReconcile := true;
      }
      var needsReconcile := pendingReconcile && baselineReady;
      var events := Settle(batch, limit, needsReconcile, disk, current, visit);
      if needsReconcile {
        pendingReconcile := false;
      }
      previousDropped := dropped;
      checkpoint := if queried.Some? then queried else checkpoint;
      ExtendRounds(rounds, Round(gap, baselineReady, needsReconcile));
      rounds := rounds + [Round(gap, baselineReady, needsReconcile)];
      r := Drained(events, needsReconcile, journalChanged);
    }
  }

  /** A drain of limit 1 that returns two records: the one queued, and one found by enumeration. */
  method DrainsTwo(fingerprint: Fingerprint, visit: Ordering) returns (r: Drained)
    requires IsOrdering(visit)
    ensures |r.events| == 2
  {
    var disk := map["a" := fingerprint];
    var m := new Monitor(None);
    m.receiver := [Activity(Modified, "b", false)];
    ghost var order := visit(disk.Keys);
    assert Visits(order, disk.Keys);
    assert "a" in disk.Keys && "a" in order && order[0] in disk.Keys;
    r := m.Drain(1, Some(map[]), 1, None, disk, disk, visit);
  }
}
