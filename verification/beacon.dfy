/**
 Beacon correlation: per protection cycle, external endpoints of suspicious processes are counted,
 and a key whose count reaches eight is reported once.  The specification is the history of
 observations, with neither saturation nor pruning.
 */
module BeaconCounter {
  import opened Common

  const THRESHOLD: nat := 8
  const SATURATED: nat := 255

  datatype Process = Process(pid: nat, identity: string)

  datatype Endpoint = Endpoint(pid: nat, remoteAddress: string, remotePort: nat, reputation: string)

  datatype Snapshot = Snapshot(processes: seq<Process>, endpoints: seq<Endpoint>)

  /** Stands for the text `identity|address|port`. */
  datatype Key = Key(identity: string, address: string, port: nat)

  datatype Report = Report(key: Key, critical: bool)

  /** The process map keeps the last entry of a pid. */
  function ProcessOf(processes: seq<Process>, pid: nat): Option<Process> {
    if processes == [] then None
    else if processes[|processes| - 1].pid == pid then Some(processes[|processes| - 1])
    else ProcessOf(processes[..|processes| - 1], pid)
  }

  /** The key an endpoint counts towards, if any. */
  function KeyOf(s: Snapshot, suspicious: set<string>, e: Endpoint): Option<Key> {
    if e.remotePort == 0 || e.reputation == "local" then None
    else match ProcessOf(s.processes, e.pid)
      case None => None
      case Some(p) => if p.identity in suspicious then Some(Key(p.identity, e.remoteAddress, e.remotePort)) else None
  }

  function Observations(s: Snapshot, suspicious: set<string>, endpoints: seq<Endpoint>): seq<Key> {
    if endpoints == [] then []
    else
      var n := |endpoints| - 1;
      Observations(s, suspicious, endpoints[..n])
      + (match KeyOf(s, suspicious, endpoints[n]) case Some(k) => [k] case None => [])
  }

  // ---------- The specification ----------

  /** One cycle is the keys it observed, in order. */
  type History = seq<seq<Key>>

  function Occurrences(cycle: seq<Key>, k: Key): nat {
    if cycle == [] then 0
    else Occurrences(cycle[..|cycle| - 1], k) + (if cycle[|cycle| - 1] == k then 1 else 0)
  }

  /** Observations of k in the unbroken run of cycles ending now. */
  function RunTotal(h: History, k: Key): nat {
    if h == [] then 0
    else
      var n := Occurrences(h[|h| - 1], k);
      if n == 0 then 0 else RunTotal(h[..|h| - 1], k) + n
  }

  /** Whether some run of k ever reached the threshold. */
  ghost predicate Reached(h: History, k: Key) {
    h != [] && (RunTotal(h, k) >= THRESHOLD || Reached(h[..|h| - 1], k))
  }

  /** The keys that reach the threshold for the first time during one more cycle, in the order and
      at the observation where they do. */
  ghost function FirstReached(h: History, cycle: seq<Key>): seq<Key> {
    if cycle == [] then []
    else
      var k := cycle[|cycle| - 1];
      FirstReached(h, cycle[..|cycle| - 1])
      + (if !Reached(h, k) && RunTotal(h, k) + Occurrences(cycle, k) == THRESHOLD then [k] else [])
  }

  ghost function AllReports(h: History): seq<Key> {
    if h == [] then [] else AllReports(h[..|h| - 1]) + FirstReached(h[..|h| - 1], h[|h| - 1])
  }

  function Saturate(n: nat): nat { if n > SATURATED then SATURATED else n }

  // ---------- Whole runs ----------

  lemma {:induction false} OccurrencesPositive(cycle: seq<Key>, k: Key)
    ensures Occurrences(cycle, k) > 0 <==> k in cycle
  {
    if cycle != [] {
      var n := |cycle| - 1;
      OccurrencesPositive(cycle[..n], k);
      assert cycle == cycle[..n] + [cycle[n]];
    }
  }

  lemma {:induction false} FirstReachedExact(h: History, cycle: seq<Key>, k: Key)
    ensures k in FirstReached(h, cycle) <==>
            !Reached(h, k) && Occurrences(cycle, k) > 0 && RunTotal(h, k) + Occurrences(cycle, k) >= THRESHOLD
    ensures Distinct(FirstReached(h, cycle))
  {
    if cycle != [] {
      var n := |cycle| - 1;
      var before := FirstReached(h, cycle[..n]);
      FirstReachedExact(h, cycle[..n], k);
      FirstReachedExact(h, cycle[..n], cycle[n]);
      if !Reached(h, k) && Occurrences(cycle[..n], k) == 0 {
        UnreachedTotal(h, k);
      }
    }
  }

  lemma UnreachedTotal(h: History, k: Key)
    requires !Reached(h, k)
    ensures RunTotal(h, k) < THRESHOLD
  {
  }

  /** Over a whole run a key is reported at most once, and exactly if some run of it reached the
      threshold. */
  lemma {:induction false} ReportsExact(h: History, k: Key)
    ensures k in AllReports(h) <==> Reached(h, k)
    ensures Distinct(AllReports(h))
  {
    if h != [] {
      var before, cycle := h[..|h| - 1], h[|h| - 1];
      ReportsExact(before, k);
      FirstReachedExact(before, cycle, k);
      var a, b := AllReports(before), FirstReached(before, cycle);
      forall i, j | 0 <= i < |a| && 0 <= j < |b| ensures a[i] != b[j] {
        ReportsExact(before, a[i]);
        FirstReachedExact(before, cycle, a[i]);
        assert a[i] in a && b[j] in b;
      }
    }
  }

  // ---------- The counter ----------

  /** Midway through a cycle, one key's entries are those of the history so far. */
  ghost predicate KeyOk(counts: map<Key, nat>, reported: set<Key>, h: History, cycle: seq<Key>, k: Key) {
    var total := RunTotal(h, k) + Occurrences(cycle, k);
    && (k in counts <==> total > 0)
    && (k in counts ==> counts[k] == Saturate(total))
    && (k in reported <==> Reached(h, k) || (Occurrences(cycle, k) > 0 && total >= THRESHOLD))
  }

  ghost predicate AllOk(counts: map<Key, nat>, reported: set<Key>, h: History, cycle: seq<Key>) {
    forall k :: KeyOk(counts, reported, h, cycle, k)
  }

  lemma OccurrencesSnoc(cycle: seq<Key>, k: Key, x: Key)
    ensures Occurrences(cycle + [k], x) == Occurrences(cycle, x) + if x == k then 1 else 0
  {
    assert (cycle + [k])[..|cycle|] == cycle;
  }

  lemma CountReports(counts: map<Key, nat>, reported: set<Key>, h: History, cycle: seq<Key>, k: Key, count: nat)
    requires KeyOk(counts, reported, h, cycle, k)
    requires count == Saturate((if k in counts then counts[k] else 0) + 1)
    ensures count >= THRESHOLD && k !in reported <==>
            !Reached(h, k) && RunTotal(h, k) + Occurrences(cycle + [k], k) == THRESHOLD
  {
    if !Reached(h, k) { UnreachedTotal(h, k); }
    OccurrencesSnoc(cycle, k, k);
    hide RunTotal, Occurrences, Reached;
  }

  lemma CountKeeps(counts: map<Key, nat>, reported: set<Key>, h: History, cycle: seq<Key>, k: Key, count: nat)
    requires AllOk(counts, reported, h, cycle)
    requires count == Saturate((if k in counts then counts[k] else 0) + 1)
    ensures AllOk(counts[k := count], if count < THRESHOLD then reported else reported + {k}, h, cycle + [k])
  {
    hide RunTotal, Occurrences, Reached;
    var counts' := counts[k := count];
    var reported' := if count < THRESHOLD then reported else reported + {k};
    forall x ensures KeyOk(counts', reported', h, cycle + [k], x) {
      OccurrencesSnoc(cycle, k, x);
      assert KeyOk(counts, reported, h, cycle, x);
      OneKey(counts, reported, counts', reported', h, cycle, k, count, x);
    }
  }

  lemma OneKey(counts: map<Key, nat>, reported: set<Key>, counts': map<Key, nat>, reported': set<Key>,
               h: History, cycle: seq<Key>, k: Key, count: nat, x: Key)
    requires KeyOk(counts, reported, h, cycle, x)
    requires count == Saturate((if k in counts then counts[k] else 0) + 1)
    requires counts' == counts[k := count]
    requires reported' == if count < THRESHOLD then reported else reported + {k}
    ensures KeyOk(counts', reported', h, cycle + [k], x)
  {
    OccurrencesSnoc(cycle, k, x);
    if !Reached(h, x) { UnreachedTotal(h, x); }
    hide RunTotal, Occurrences, Reached;
  }

  /** Dropping the keys this cycle did not see starts the next cycle. */
  lemma EndCycle(counts: map<Key, nat>, reported: set<Key>, h: History, cycle: seq<Key>, kept: map<Key, nat>)
    requires AllOk(counts, reported, h, cycle)
    requires kept == map k | k in counts && k in cycle :: counts[k]
    ensures AllOk(kept, reported, h + [cycle], [])
  {
    assert (h + [cycle])[..|h|] == h;
    forall k ensures KeyOk(kept, reported, h + [cycle], [], k) {
      OccurrencesPositive(cycle, k);
      assert KeyOk(counts, reported, h, cycle, k);
      if !Reached(h, k) { UnreachedTotal(h, k); }
    }
  }

  lemma AllOkAt(counts: map<Key, nat>, reported: set<Key>, h: History, cycle: seq<Key>, k: Key)
    requires AllOk(counts, reported, h, cycle)
    ensures KeyOk(counts, reported, h, cycle, k)
  {
  }

  lemma StepObservations(s: Snapshot, suspicious: set<string>, i: nat)
    requires i < |s.endpoints|
    ensures Observations(s, suspicious, s.endpoints[..i + 1]) ==
            Observations(s, suspicious, s.endpoints[..i])
            + (match KeyOf(s, suspicious, s.endpoints[i]) case Some(k) => [k] case None => [])
  {
    assert s.endpoints[..i + 1][..i] == s.endpoints[..i];
  }

  lemma StepFirstReached(h: History, cycle: seq<Key>, k: Key)
    ensures FirstReached(h, cycle + [k]) ==
            FirstReached(h, cycle)
            + (if !Reached(h, k) && RunTotal(h, k) + Occurrences(cycle + [k], k) == THRESHOLD then [k] else [])
  {
    assert (cycle + [k])[..|cycle|] == cycle;
  }

  function Keys(reports: seq<Report>): seq<Key> {
    seq(|reports|, i requires 0 <= i < |reports| => reports[i].key)
  }

  class Correlator {
    var counts: map<Key, nat>
    var reported: set<Key>
    ghost var history: History

    /** Counts are the saturated run totals, unseen keys are absent, and reported keys are those
        some run of which reached the threshold. */
    ghost predicate Valid()
      reads this
    {
      AllOk(counts, reported, history, [])
    }

    constructor ()
      ensures Valid() && history == []
    {
      counts, reported, history := map[], {}, [];
    }

    /** One observation of a key; true when it is to be reported. */
    method Count(k: Key, ghost cycle: seq<Key>) returns (report: bool)
      requires AllOk(counts, reported, history, cycle)
      modifies this`counts, this`reported
      ensures AllOk(counts, reported, history, cycle + [k])
      ensures report <==> !Reached(history, k) && RunTotal(history, k) + Occurrences(cycle + [k], k) == THRESHOLD
    {
      hide AllOk, KeyOk, RunTotal, Occurrences, Reached;
      var count := Saturate((if k in counts then counts[k] else 0) + 1);
      assert KeyOk(counts, reported, history, cycle, k) by { AllOkAt(counts, reported, history, cycle, k); }
      CountReports(counts, reported, history, cycle, k, count);
      CountKeeps(counts, reported, history, cycle, k, count);
      counts := counts[k := count];
      if count < THRESHOLD {
        return false;
      }
      report := k !in reported;
      reported := reported + {k};
    }

    /** The loop over the endpoints. */
    method CountEndpoints(s: Snapshot, suspicious: set<string>) returns (reports: seq<Report>, active: set<Key>, ghost cycle: seq<Key>)
      requires Valid()
      modifies this`counts, this`reported
      ensures cycle == Observations(s, suspicious, s.endpoints) && AllOk(counts, reported, history, cycle)
      ensures forall k :: k in active <==> k in cycle
      ensures Keys(reports) == FirstReached(history, cycle)
    {
      cycle, active, reports := [], {}, [];
      assert Observations(s, suspicious, s.endpoints[..0]) == [] && FirstReached(history, []) == [];
      hide AllOk, Observations, KeyOf, FirstReached, Reached, RunTotal, Occurrences;
      for i := 0 to |s.endpoints|
        invariant AllOk(counts, reported, history, cycle) && cycle == Observations(s, suspicious, s.endpoints[..i])
        invariant forall k :: k in active <==> k in cycle
        invariant Keys(reports) == FirstReached(history, cycle)
      {
        var endpoint := s.endpoints[i];
        StepObservations(s, suspicious, i);
        var key := KeyOf(s, suspicious, endpoint);
        if key.Some? {
          active := active + {key.value};
          var report := Count(key.value, cycle);
          StepFirstReached(history, cycle, key.value);
          if report {
            KeysSnoc(reports, Report(key.value, endpoint.reputation == "malicious"));
            reports := reports + [Report(key.value, endpoint.reputation == "malicious")];
          }
          cycle := cycle + [key.value];
        }
      }
      assert s.endpoints[..|s.endpoints|] == s.endpoints;
    }

    method CorrelateBeacons(s: Snapshot, suspicious: set<string>) returns (reports: seq<Report>)
      requires Valid()
      modifies this
      ensures Valid()
      ensures history == old(history) + [Observations(s, suspicious, s.endpoints)]
      ensures Keys(reports) == FirstReached(old(history), Observations(s, suspicious, s.endpoints))
    {
      hide AllOk, Observations, FirstReached, Keys;
      var active: set<Key>;
      ghost var cycle;
      reports, active, cycle := CountEndpoints(s, suspicious);
      ghost var kept := map k | k in counts && k in cycle :: counts[k];
      EndCycle(counts, reported, history, cycle, kept);
      counts := map k | k in counts && k in active :: counts[k];
      assert counts == kept;
      history := history + [cycle];
    }
  }

  lemma KeysSnoc(reports: seq<Report>, r: Report)
    ensures Keys(reports + [r]) == Keys(reports) + [r.key]
  {
  }
}
