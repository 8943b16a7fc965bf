/**
 The per-owner executable baseline: which process identities a service run has seen, kept in
 memory, written through to the database, and used to flag an executable the first time it runs.
 */
module ExecutableBaseline {
  import opened Common

  const CHUNK: nat := 500

  type Owner = string
  type Identity = string

  /** Which database call of the operation fails, if any. */
  datatype Trouble = NoTrouble | ReadFails | RecordFails | MetadataFails

  datatype StorageError = StorageError

  /** The snapshots an owner's cache has absorbed in this service run. */
  type Snapshots = seq<seq<Identity>>

  ghost function NonEmpty(s: seq<Identity>): set<Identity> {
    set x | x in s && x != ""
  }

  /** The rows a batch of one owner upserts. */
  ghost function Keyed(owner: Owner, s: seq<Identity>): set<(Owner, Identity)> {
    set x | x in s && x != "" :: (owner, x)
  }

  ghost function Seen(h: Snapshots): set<Identity> {
    if h == [] then {} else Seen(h[..|h| - 1]) + NonEmpty(h[|h| - 1])
  }

  /** The j-th process runs an identity for the first time in this history. */
  ghost predicate FirstOccurrence(h: Snapshots, snapshot: seq<Identity>, j: nat)
    requires j < |snapshot|
  {
    snapshot[j] != "" && snapshot[j] !in Seen(h) && snapshot[j] !in snapshot[..j]
  }

  class Database {
    /** Rows of `seen_executables` and owners whose baseline was initialised. */
    var rows: set<(Owner, Identity)>
    var initialized: set<Owner>

    constructor ()
      ensures rows == {} && initialized == {}
    {
      rows, initialized := {}, {};
    }

    /** Queries in chunks of 500 placeholders. */
    method KnownExecutableIdentities(owner: Owner, identities: seq<Identity>) returns (known: set<Identity>)
      ensures known == set x | x in identities && x != "" && (owner, x) in rows
    {
      var unique: seq<Identity> := [];
      for i := 0 to |identities|
        invariant forall x :: x in unique <==> x in identities[..i] && x != ""
      {
        if identities[i] != "" && identities[i] !in unique {
          unique := unique + [identities[i]];
        }
      }
      assert identities[..|identities|] == identities;
      known := {};
      var at := 0;
      while at < |unique|
        invariant at <= |unique|
        invariant known == set x | x in unique[..at] && (owner, x) in rows
      {
        var next := if at + CHUNK <= |unique| then at + CHUNK else |unique|;
        var chunk := unique[at..next];
        assert unique[..next] == unique[..at] + chunk;
        known := known + set x | x in chunk && (owner, x) in rows;
        at := next;
      }
      assert unique[..|unique|] == unique;
    }

    /** Upserts a batch in one transaction, skipping empty identities. */
    method RecordExecutables(owner: Owner, observations: seq<Identity>)
      modifies this`rows
      ensures rows == old(rows) + Keyed(owner, observations)
    {
      ghost var before := rows;
      for i := 0 to |observations|
        invariant rows == before + Keyed(owner, observations[..i])
      {
        assert observations[..i + 1] == observations[..i] + [observations[i]];
        if observations[i] != "" {
          rows := rows + {(owner, observations[i])};
        }
      }
      assert observations[..|observations|] == observations;
    }
  }

  ghost predicate Tracks(baselines: map<Owner, set<Identity>>, history: map<Owner, Snapshots>) {
    && history.Keys == baselines.Keys
    && forall owner :: owner in baselines ==> history[owner] != [] && baselines[owner] == Seen(history[owner])
  }

  ghost predicate AllIn(baselines: map<Owner, set<Identity>>, rows: set<(Owner, Identity)>) {
    forall owner, x :: owner in baselines && x in baselines[owner] ==> (owner, x) in rows
  }

  class BaselineCache {
    const database: Database
    var baselines: map<Owner, set<Identity>>
    ghost var history: map<Owner, Snapshots>
    /** Rows whose write failed after the cache had absorbed them. */
    ghost var lost: set<(Owner, Identity)>

    /** Each owner's cache is what its snapshots have shown, all of it stored unless a write failed. */
    ghost predicate Valid()
      reads this, database
    {
      Tracks(baselines, history) && AllIn(baselines, database.rows + lost)
    }

    /** A service run starts with an empty cache over whatever the database holds. */
    constructor (database: Database)
      ensures Valid() && this.database == database && history == map[] && lost == {}
    {
      this.database := database;
      baselines, history, lost := map[], map[], {};
    }

    /** Absorbs a snapshot into an existing cache, one process at a time. */
    method Absorb(known: set<Identity>, snapshot: seq<Identity>, persistAll: bool, ghost h: Snapshots)
      returns (cache: set<Identity>, isNew: seq<bool>, changed: seq<Identity>)
      requires known == Seen(h)
      ensures cache == Seen(h + [snapshot])
      ensures |isNew| == |snapshot| && forall j :: 0 <= j < |snapshot| ==> (isNew[j] <==> FirstOccurrence(h, snapshot, j))
      ensures forall x :: x in changed ==> x in snapshot
      ensures forall x :: x in cache - known ==> x in changed
      ensures persistAll ==> changed == snapshot
    {
      cache, isNew, changed := known, [], [];
      for j := 0 to |snapshot|
        invariant cache == known + NonEmpty(snapshot[..j])
        invariant |isNew| == j && forall k :: 0 <= k < j ==> (isNew[k] <==> FirstOccurrence(h, snapshot, k))
        invariant forall x :: x in changed ==> x in snapshot[..j]
        invariant forall x :: x in cache - known ==> x in changed
        invariant persistAll ==> changed == snapshot[..j]
      {
        var identity := snapshot[j];
        assert snapshot[..j + 1] == snapshot[..j] + [identity];
        var unseen := identity != "" && identity !in cache;
        if unseen {
          cache := cache + {identity};
        }
        isNew := isNew + [unseen];
        if unseen || persistAll {
          changed := changed + [identity];
        }
      }
      assert snapshot[..|snapshot|] == snapshot;
      assert (h + [snapshot])[..|h|] == h;
    }

    /** One snapshot of one owner.  The result says per process whether it is new, and whether this
        initialised the owner's baseline. */
    method ApplyExecutableBaseline(owner: Owner, snapshot: seq<Identity>, persistAll: bool, trouble: Trouble)
      returns (r: Result<(seq<bool>, bool), StorageError>)
      requires Valid()
      modifies this, database
      ensures Valid() && database.rows >= old(database.rows)
      ensures trouble == NoTrouble ==> r.Ok? && lost == old(lost)
      ensures database.rows <= old(database.rows) + Keyed(owner, snapshot)
      // A failed first snapshot leaves no trace in the cache; any other snapshot joins the history.
      ensures history == if r.Err? && owner !in old(history) then old(history) else
                old(history)[owner := (if owner in old(history) then old(history)[owner] else []) + [snapshot]]
      ensures r.Ok? ==> owner in baselines && |r.value.0| == |snapshot|
      ensures database.initialized ==
              if r.Ok? && owner !in old(baselines) then old(database.initialized) + {owner} else old(database.initialized)
      // Every five minutes, and on the first snapshot, all of it is written.
      ensures r.Ok? && (persistAll || owner !in old(baselines)) ==>
                database.rows == old(database.rows) + Keyed(owner, snapshot)
      // From the second snapshot on: new exactly at the first occurrence in the history.
      ensures r.Ok? && owner in old(baselines) ==>
                !r.value.1 &&
                forall j :: 0 <= j < |snapshot| ==> (r.value.0[j] <==> FirstOccurrence(old(history)[owner], snapshot, j))
      // The first one: new if the owner was initialised before and the database does not know it.
      ensures r.Ok? && owner !in old(baselines) ==>
                (r.value.1 <==> owner !in old(database.initialized)) &&
                forall j :: 0 <= j < |snapshot| ==>
                  (r.value.0[j] <==> owner in old(database.initialized) && snapshot[j] != ""
                                     && (owner, snapshot[j]) !in old(database.rows))
    {
      if owner in baselines {
        r := Later(owner, snapshot, persistAll, trouble);
      } else {
        assert [] + [snapshot] == [snapshot];
        r := First(owner, snapshot, trouble);
      }
    }

    method Later(owner: Owner, snapshot: seq<Identity>, persistAll: bool, trouble: Trouble)
      returns (r: Result<(seq<bool>, bool), StorageError>)
      requires Valid() && owner in baselines
      modifies this, database
      ensures Valid() && database.rows >= old(database.rows) && database.initialized == old(database.initialized)
      ensures database.rows <= old(database.rows) + Keyed(owner, snapshot)
      ensures trouble == NoTrouble ==> r.Ok? && lost == old(lost)
      ensures baselines.Keys == old(baselines.Keys)
      ensures r.Ok? && persistAll ==> database.rows == old(database.rows) + Keyed(owner, snapshot)
      ensures history == old(history)[owner := old(history)[owner] + [snapshot]]
      ensures r.Ok? ==> |r.value.0| == |snapshot| && !r.value.1
      ensures r.Ok? ==>
                forall j :: 0 <= j < |snapshot| ==> (r.value.0[j] <==> FirstOccurrence(old(history)[owner], snapshot, j))
    {
      hide FirstOccurrence, Seen, NonEmpty, Keyed, AllIn, Tracks;
      Tracked(baselines, history, owner);
      ghost var h := history[owner];
      var cache, isNew, changed := Absorb(baselines[owner], snapshot, persistAll, h);
      Absorbed(h, snapshot);
      Stored(baselines, owner, cache, snapshot, changed, database.rows + lost);
      ghost var needed := database.rows + lost + Keyed(owner, changed);
      TracksNext(baselines, history, owner, cache, snapshot);
      baselines := baselines[owner := cache];
      history := history[owner := h + [snapshot]];
      if changed != [] {
        if trouble == RecordFails {
          lost := lost + Keyed(owner, changed);
          assert needed == database.rows + lost;
          return Err(StorageError);
        }
        database.RecordExecutables(owner, changed);
      }
      assert needed == database.rows + lost;
      r := Ok((isNew, false));
    }

    method First(owner: Owner, snapshot: seq<Identity>, trouble: Trouble)
      returns (r: Result<(seq<bool>, bool), StorageError>)
      requires Valid() && owner !in baselines
      modifies this, database
      ensures Valid() && database.rows >= old(database.rows) && lost == old(lost)
      ensures database.rows <= old(database.rows) + Keyed(owner, snapshot)
      ensures trouble == NoTrouble ==> r.Ok?
      ensures r.Err? ==> baselines == old(baselines) && history == old(history)
      ensures r.Ok? ==> history == old(history)[owner := [snapshot]] && |r.value.0| == |snapshot|
      ensures r.Ok? ==>
                (r.value.1 <==> owner !in old(database.initialized)) &&
                (forall j :: 0 <= j < |snapshot| ==>
                  (r.value.0[j] <==> owner in old(database.initialized) && snapshot[j] != ""
                                     && (owner, snapshot[j]) !in old(database.rows)))
      ensures r.Ok? ==> database.rows == old(database.rows) + Keyed(owner, snapshot)
      ensures database.initialized == if r.Ok? then old(database.initialized) + {owner} else old(database.initialized)
    {
      if trouble == ReadFails {
        return Err(StorageError);
      }
      var wasInitialized := owner in database.initialized;
      var known := database.KnownExecutableIdentities(owner, snapshot);
      var isNew := seq(|snapshot|, j requires 0 <= j < |snapshot| =>
        wasInitialized && snapshot[j] != "" && snapshot[j] !in known);
      if trouble == RecordFails {
        return Err(StorageError);
      }
      database.RecordExecutables(owner, snapshot);
      if !wasInitialized {
        if trouble == MetadataFails {
          return Err(StorageError);
        }
        database.initialized := database.initialized + {owner};
      }
      ghost var stored := database.rows + lost;
      FirstSnapshot(baselines, history, owner, snapshot, stored);
      hide Tracks, AllIn, Keyed;
      baselines := baselines[owner := set x | x in snapshot && x != ""];
      history := history[owner := [snapshot]];
      assert stored == database.rows + lost;
      r := Ok((isNew, !wasInitialized));
    }
  }

  lemma Absorbed(h: Snapshots, snapshot: seq<Identity>)
    ensures Seen(h + [snapshot]) == Seen(h) + NonEmpty(snapshot)
    ensures h == [] ==> h + [snapshot] == [snapshot] && Seen([snapshot]) == NonEmpty(snapshot)
    ensures "" !in NonEmpty(snapshot)
  {
    assert (h + [snapshot])[..|h|] == h;
    assert h == [] ==> h + [snapshot] == [snapshot];
  }

  lemma Tracked(baselines: map<Owner, set<Identity>>, history: map<Owner, Snapshots>, owner: Owner)
    requires owner in baselines && Tracks(baselines, history)
    ensures owner in history && baselines[owner] == Seen(history[owner])
  {
  }

  lemma TracksNext(baselines: map<Owner, set<Identity>>, history: map<Owner, Snapshots>, owner: Owner, cache: set<Identity>,
                   snapshot: seq<Identity>)
    requires owner in baselines && Tracks(baselines, history) && cache == Seen(history[owner] + [snapshot])
    ensures Tracks(baselines[owner := cache], history[owner := history[owner] + [snapshot]])
  {
  }

  lemma FirstSnapshot(baselines: map<Owner, set<Identity>>, history: map<Owner, Snapshots>, owner: Owner,
                      snapshot: seq<Identity>, rows: set<(Owner, Identity)>)
    requires owner !in baselines && Tracks(baselines, history) && AllIn(baselines, rows) && Keyed(owner, snapshot) <= rows
    ensures var cache := set x | x in snapshot && x != "";
            Tracks(baselines[owner := cache], history[owner := [snapshot]]) && AllIn(baselines[owner := cache], rows)
  {
    Absorbed([], snapshot);
  }

  lemma Stored(baselines: map<Owner, set<Identity>>, owner: Owner, cache: set<Identity>, snapshot: seq<Identity>,
               changed: seq<Identity>, rows: set<(Owner, Identity)>)
    requires owner in baselines && cache == baselines[owner] + NonEmpty(snapshot) && AllIn(baselines, rows)
    requires (forall x :: x in changed ==> x in snapshot) && (forall x :: x in cache - baselines[owner] ==> x in changed)
    ensures Keyed(owner, changed) <= Keyed(owner, snapshot)
    ensures changed == [] ==> Keyed(owner, changed) == {}
    ensures AllIn(baselines[owner := cache], rows + Keyed(owner, changed))
  {
    forall x | x in cache ensures (owner, x) in rows + Keyed(owner, changed) {
      if x !in baselines[owner] {
        assert x in changed && x != "";
      }
    }
  }

  // ---------- Over a whole history ----------

  lemma {:induction false} SeenExact(h: Snapshots, x: Identity)
    ensures x in Seen(h) <==> exists n, j :: 0 <= n < |h| && 0 <= j < |h[n]| && h[n][j] == x && x != ""
  {
    if h != [] {
      var last := |h| - 1;
      SeenExact(h[..last], x);
      if x in NonEmpty(h[last]) {
        var j :| 0 <= j < |h[last]| && h[last][j] == x;
      }
      if n, j :| 0 <= n < |h| && 0 <= j < |h[n]| && h[n][j] == x && x != "" {
        if n < last {
          assert h[..last][n] == h[n];
        } else {
          assert x in NonEmpty(h[last]);
        }
      }
    }
  }

  /** Flags are exactly the first occurrences: no earlier process of the history ran the identity. */
  lemma FirstOccurrenceExact(h: Snapshots, n: nat, j: nat)
    requires 0 < n < |h| && j < |h[n]|
    ensures FirstOccurrence(h[..n], h[n], j) <==>
            h[n][j] != "" && forall m, k :: 0 <= m <= n && 0 <= k < |h[m]| && (m < n || k < j) ==> h[m][k] != h[n][j]
  {
    var x := h[n][j];
    SeenExact(h[..n], x);
    assert forall m :: 0 <= m < n ==> h[..n][m] == h[m];
    if x in h[n][..j] {
      var k :| 0 <= k < j && h[n][k] == x;
    }
  }

  /** So an identity is flagged at most once after the first snapshot. */
  lemma FlaggedOnce(h: Snapshots, n: nat, j: nat, m: nat, k: nat)
    requires 0 < n < |h| && j < |h[n]| && 0 < m < |h| && k < |h[m]|
    requires FirstOccurrence(h[..n], h[n], j) && FirstOccurrence(h[..m], h[m], k) && h[n][j] == h[m][k]
    ensures n == m && j == k
  {
    FirstOccurrenceExact(h, n, j);
    FirstOccurrenceExact(h, m, k);
  }
}
