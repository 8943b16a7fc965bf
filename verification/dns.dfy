/**
 The reverse-DNS resolver: any number of concurrent callers, a set of pending addresses, a channel
 of 256 slots and one worker with a cache.  Each lock-protected access and each channel operation
 is one atomic step.
 */
module DnsResolver {
  import opened Common

  const CHANNEL_CAPACITY: nat := 256
  const CACHE_PRUNE_ABOVE: nat := 4_096
  const LIFETIME: nat := 600

  type Address = string

  datatype CacheEntry = CacheEntry(expiresAt: nat, hostname: string)

  /** A caller between inserting an address and sending it, or between a refused send and the
      compensating removal. */
  datatype Caller = Away | Inserted(address: Address) | Refused(address: Address)

  datatype Worker = Waiting | Looking(address: Address) | Stored(address: Address, at: nat) | Gone

  datatype State = State(now: nat, pending: set<Address>, channel: seq<Address>, worker: Worker, callers: seq<Caller>,
                         cache: map<Address, CacheEntry>, resolved: set<(Address, string)>)

  datatype Step =
    | Tick(seconds: nat)
    | PruneCache
    | Insert(caller: nat, address: Address)
    | Send(caller: nat, ok: bool)
    | GiveUp(caller: nat)
    | Receive
    | Store(hostname: string)
    | Release
    | WorkerDies

  function Initial(callers: nat): State {
    State(0, {}, [], Waiting, seq(callers, _ => Away), map[], {})
  }

  function Apply(s: State, step: Step): Option<State> {
    match step
    case Tick(seconds) => Some(s.(now := s.now + seconds))
    case PruneCache =>
      if |s.cache| <= CACHE_PRUNE_ABOVE then None
      else Some(s.(cache := map a | a in s.cache && s.cache[a].expiresAt > s.now :: s.cache[a]))
    case Insert(i, a) =>
      if i >= |s.callers| || s.callers[i] != Away then None
      else if a in s.pending then Some(s)
      else Some(s.(pending := s.pending + {a}, callers := s.callers[i := Inserted(a)]))
    case Send(i, ok) =>
      if i >= |s.callers| || !s.callers[i].Inserted? || (ok && (|s.channel| >= CHANNEL_CAPACITY || s.worker.Gone?)) then None
      else if ok then Some(s.(channel := s.channel + [s.callers[i].address], callers := s.callers[i := Away]))
      else Some(s.(callers := s.callers[i := Refused(s.callers[i].address)]))
    case GiveUp(i) =>
      if i >= |s.callers| || !s.callers[i].Refused? then None
      else Some(s.(pending := s.pending - {s.callers[i].address}, callers := s.callers[i := Away]))
    case Receive =>
      if !s.worker.Waiting? || s.channel == [] then None
      else Some(s.(worker := Looking(s.channel[0]), channel := s.channel[1..]))
    case Store(hostname) =>
      if !s.worker.Looking? then None
      else
        var a := s.worker.address;
        Some(s.(cache := s.cache[a := CacheEntry(s.now + LIFETIME, hostname)], worker := Stored(a, s.now),
                resolved := s.resolved + {(a, hostname)}))
    case Release =>
      if !s.worker.Stored? then None
      else Some(s.(pending := s.pending - {s.worker.address}, worker := Waiting))
    case WorkerDies =>
      // The worker thread could not be spawned: the receiver is dropped before anything is sent.
      if s.worker.Waiting? && s.channel == [] then Some(s.(worker := Gone)) else None
  }

  function Run(callers: nat, steps: seq<Step>): Option<State> {
    if steps == [] then Some(Initial(callers))
    else match Run(callers, steps[..|steps| - 1])
      case None => None
      case Some(s) => Apply(s, steps[|steps| - 1])
  }

  /** What `hostname` answers from the cache. */
  function Cached(s: State, a: Address): Option<string> {
    if a in s.cache && s.cache[a].expiresAt > s.now then Some(s.cache[a].hostname) else None
  }

  // ---------- The invariant ----------

  /** Everywhere a pending address can be. */
  datatype Place = AtCaller(i: nat) | InChannel(k: nat) | AtWorker

  ghost predicate Holds(s: State, p: Place, a: Address) {
    match p
    case AtCaller(i) => i < |s.callers| && s.callers[i] != Away && s.callers[i].address == a
    case InChannel(k) => k < |s.channel| && s.channel[k] == a
    case AtWorker => (s.worker.Looking? || s.worker.Stored?) && s.worker.address == a
  }

  ghost predicate Held(s: State, a: Address) {
    exists p :: Holds(s, p, a)
  }

  /** Pending is the disjoint union of what callers, the channel and the worker hold. */
  ghost predicate Partitioned(s: State) {
    && (forall a :: a in s.pending <==> Held(s, a))
    && (forall p, q, a :: Holds(s, p, a) && Holds(s, q, a) ==> p == q)
  }

  ghost predicate Inv(s: State) {
    && Partitioned(s)
    && |s.channel| <= CHANNEL_CAPACITY
    && (forall a :: a in s.cache ==> (a, s.cache[a].hostname) in s.resolved)
    && (s.worker.Stored? ==> s.worker.at <= s.now)
    && (s.worker.Stored? && s.now < s.worker.at + LIFETIME ==>
          s.worker.address in s.cache && s.cache[s.worker.address].expiresAt == s.worker.at + LIFETIME)
  }

  lemma InitialInv(callers: nat)
    ensures Inv(Initial(callers))
  {
    forall p, a ensures !Holds(Initial(callers), p, a) { }
  }

  /** Places may be renamed; what is held, and by exactly one place, stays. */
  lemma Renamed(s: State, t: State, fromNew: Place -> Place, toNew: Place -> Place)
    requires Partitioned(s) && t.pending == s.pending
    requires forall p, a :: Holds(t, p, a) ==> Holds(s, fromNew(p), a) && toNew(fromNew(p)) == p
    requires forall p, a :: Holds(s, p, a) ==> Holds(t, toNew(p), a)
    ensures Partitioned(t)
  {
    forall a ensures a in t.pending <==> Held(t, a) {
      if p :| Holds(s, p, a) { assert Holds(t, toNew(p), a); }
      if p :| Holds(t, p, a) { assert Holds(s, fromNew(p), a); }
    }
  }

  lemma Added(s: State, t: State, x: Address, at: Place)
    requires Partitioned(s) && x !in s.pending && t.pending == s.pending + {x}
    requires forall p, a :: Holds(t, p, a) <==> Holds(s, p, a) || (p == at && a == x)
    ensures Partitioned(t)
  {
    forall a ensures a in t.pending <==> Held(t, a) {
      if p :| Holds(s, p, a) { assert Holds(t, p, a); }
      if p :| Holds(t, p, a) { assert Holds(s, p, a) || a == x; }
      if a == x { assert Holds(t, at, a); }
    }
    forall p, q, a | Holds(t, p, a) && Holds(t, q, a) ensures p == q {
      assert a == x ==> !Held(s, x);
    }
  }

  lemma Removed(s: State, t: State, x: Address, at: Place)
    requires Partitioned(s) && Holds(s, at, x) && t.pending == s.pending - {x}
    requires forall p, a :: Holds(t, p, a) <==> Holds(s, p, a) && p != at
    ensures Partitioned(t)
  {
    forall a ensures a in t.pending <==> Held(t, a) {
      if p :| Holds(t, p, a) { assert Holds(s, p, a) && (a == x ==> p == at); }
      if p :| Holds(s, p, a) { assert a != x ==> (Holds(s, at, a) ==> p == at) && (p != at ==> Holds(t, p, a)); }
      if a != x && Held(s, a) {
        var p :| Holds(s, p, a);
        assert p != at by { OneAddress(s, at, x, a); }
        assert Holds(t, p, a);
      }
    }
  }

  lemma OneAddress(s: State, p: Place, a: Address, b: Address)
    requires Holds(s, p, a) && a != b
    ensures !Holds(s, p, b)
  {
  }

  lemma StepPartitioned(s: State, step: Step)
    requires Partitioned(s) && Apply(s, step).Some?
    ensures Partitioned(Apply(s, step).value)
  {
    hide Partitioned;
    var t := Apply(s, step).value;
    match step
    case Insert(i, a) =>
      if a !in s.pending { Added(s, t, a, AtCaller(i)); }
    case Send(i, ok) =>
      if ok {
        var last := InChannel(|s.channel|);
        Renamed(s, t, p => if p == last then AtCaller(i) else p, p => if p == AtCaller(i) then last else p);
      } else {
        Renamed(s, t, p => p, p => p);
      }
    case GiveUp(i) =>
      Removed(s, t, s.callers[i].address, AtCaller(i));
    case Receive =>
      Renamed(s, t,
              (p: Place) => if p.InChannel? then InChannel(p.k + 1) else if p.AtWorker? then InChannel(0) else p,
              (p: Place) => if p.InChannel? then (if p.k == 0 then AtWorker else InChannel(p.k - 1)) else p);
    case Release =>
      Removed(s, t, s.worker.address, AtWorker);
    case _ =>
      Renamed(s, t, p => p, p => p);
  }

  lemma StepKeeps(s: State, step: Step)
    requires Inv(s) && Apply(s, step).Some?
    ensures Inv(Apply(s, step).value)
  {
    hide Partitioned;
    StepPartitioned(s, step);
  }

  lemma {:induction false} RunKeeps(callers: nat, steps: seq<Step>)
    requires Run(callers, steps).Some?
    ensures Inv(Run(callers, steps).value) && |Run(callers, steps).value.callers| == callers
  {
    hide Inv;
    if steps == [] {
      InitialInv(callers);
    } else {
      RunKeeps(callers, steps[..|steps| - 1]);
      StepKeeps(Run(callers, steps[..|steps| - 1]).value, steps[|steps| - 1]);
    }
  }

  // ---------- What follows ----------

  ghost function Elements<T>(s: seq<T>): set<T> {
    set x | x in s
  }

  lemma {:induction false} ElementsBounded<T>(s: seq<T>)
    ensures |Elements(s)| <= |s|
  {
    if s == [] {
      assert Elements(s) == {};
    } else {
      var n := |s| - 1;
      ElementsBounded(s[..n]);
      assert s == s[..n] + [s[n]];
      assert Elements(s) == Elements(s[..n]) + {s[n]};
    }
  }

  lemma {:induction false} CallersBounded(callers: seq<Caller>) returns (held: set<Address>)
    ensures |held| <= |callers|
    ensures forall i :: 0 <= i < |callers| && !callers[i].Away? ==> callers[i].address in held
  {
    if callers == [] {
      held := {};
    } else {
      var n := |callers| - 1;
      held := CallersBounded(callers[..n]);
      if !callers[n].Away? { held := held + {callers[n].address}; }
    }
  }

  /** At most one slot per address anywhere, so no address is queued twice, and no more addresses
      are pending than the channel, the callers and the worker can hold. */
  lemma PendingBounded(callers: nat, steps: seq<Step>, s: State)
    requires Run(callers, steps) == Some(s)
    ensures Partitioned(s) && Distinct(s.channel)
    ensures |s.pending| <= CHANNEL_CAPACITY + callers + 1
  {
    RunKeeps(callers, steps);
    forall i, j | 0 <= i < j < |s.channel| ensures s.channel[i] != s.channel[j] {
      if s.channel[i] == s.channel[j] {
        assert Holds(s, InChannel(i), s.channel[i]) && Holds(s, InChannel(j), s.channel[i]);
      }
    }
    var held := CallersBounded(s.callers);
    var working := if s.worker.Looking? || s.worker.Stored? then {s.worker.address} else {};
    ElementsBounded(s.channel);
    forall a | a in s.pending ensures a in Elements(s.channel) + held + working {
      assert Held(s, a);
      var p :| Holds(s, p, a);
    }
    SubsetSize(s.pending, Elements(s.channel) + held + working);
  }

  /** An address leaves `pending` only when its send was refused, or after the worker cached it. */
  lemma CachedBeforeReleased(callers: nat, steps: seq<Step>, s: State, step: Step, a: Address)
    requires Run(callers, steps) == Some(s) && Apply(s, step).Some?
    requires a in s.pending && a !in Apply(s, step).value.pending
    ensures (step.GiveUp? && s.callers[step.caller] == Refused(a)) || (step.Release? && s.worker.Stored? && s.worker.address == a)
    ensures step.Release? && s.now < s.worker.at + LIFETIME ==> Cached(s, a).Some?
  {
    RunKeeps(callers, steps);
  }

  /** Answers come only from completed lookups of that very address. */
  lemma AnswersAreResolved(callers: nat, steps: seq<Step>, s: State, a: Address)
    requires Run(callers, steps) == Some(s) && Cached(s, a).Some?
    ensures (a, Cached(s, a).value) in s.resolved
  {
    RunKeeps(callers, steps);
  }
}
