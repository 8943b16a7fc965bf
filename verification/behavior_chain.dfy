/**
 The behaviour-chain engine: Sysmon events are grouped per process into chains of recent
 signals, and a chain that satisfies a rule raises an alert, at most once per cooldown.

 The engine prunes, truncates and evicts.  Its specification does none of that: it keeps one
 append-only log and reads every answer off the whole log.
 */
module BehaviorChain {
  import opened Common

  // Instants are nanoseconds on a monotonic clock.
  const CHAIN_WINDOW: nat := 600_000_000_000
  const ALERT_COOLDOWN: nat := 3_600_000_000_000
  const MAXIMUM_CHAINS: nat := 4_096
  const MAXIMUM_SIGNALS_PER_CHAIN: nat := 32

  datatype SignalKind = CredentialAccess | Injection | FileDrop | Persistence | Network

  datatype Rule = CredentialExfiltration | InjectionBeacon | DropPersistenceBeacon

  datatype Signal = Signal(kind: SignalKind, observedAt: nat, detail: string, remoteAddress: string)

  datatype Chain = Chain(processId: Option<nat>, path: string, lastSeen: nat, signals: seq<Signal>)

  /** The rule stands for the event type, severity, title and MITRE text it determines. */
  datatype Alert = Alert(rule: Rule, evidence: seq<string>, processId: Option<nat>, path: string,
                         remoteAddress: string, correlationId: string)

  datatype Event = Event(eventId: nat, fields: map<string, string>)

  /** The string tests of the classifier.  Every result below holds for any choice of them. */
  datatype Tests = Tests(isLsass: string -> bool, hasMemoryReadAccess: string -> bool,
                         isExecutableDrop: string -> bool, isPersistenceTarget: string -> bool,
                         isExternalAddress: string -> bool, isExternalDnsQuery: string -> bool,
                         parsePid: string -> Option<nat>, detail: Event -> string)

  // ---------- Reading one event ----------

  function Field(e: Event, name: string): string {
    if name in e.fields then e.fields[name] else ""
  }

  function FirstNonEmpty(e: Event, names: seq<string>): string {
    if names == [] then ""
    else if Field(e, names[0]) != "" then Field(e, names[0])
    else FirstNonEmpty(e, names[1..])
  }

  function Image(e: Event): string {
    FirstNonEmpty(e, ["Image", "SourceImage", "TargetImage"])
  }

  function TargetPath(e: Event): string {
    FirstNonEmpty(e, ["TargetFilename", "TargetObject", "TargetImage", "PipeName"])
  }

  function RemoteAddress(e: Event): string {
    FirstNonEmpty(e, ["DestinationIp", "QueryName"])
  }

  function FirstPid(tests: Tests, e: Event, names: seq<string>): Option<nat> {
    if names == [] then None
    else match tests.parsePid(Field(e, names[0]))
      case Some(pid) => Some(pid)
      case None => FirstPid(tests, e, names[1..])
  }

  function ProcessId(tests: Tests, e: Event): Option<nat> {
    FirstPid(tests, e, ["ProcessId", "SourceProcessId", "TargetProcessId"])
  }

  function Decimal(n: nat): string {
    (if n < 10 then "" else Decimal(n / 10)) + [(n % 10) as char + '0']
  }

  function StableCorrelationId(tests: Tests, e: Event): Option<string> {
    var guid := FirstNonEmpty(e, ["ProcessGuid", "SourceProcessGuid"]);
    if guid != "" then Some("sysmon-" + guid)
    else match ProcessId(tests, e)
      case Some(pid) => if pid != 0 then Some("sysmon-pid-" + Decimal(pid)) else None
      case None => None
  }

  function Classify(tests: Tests, e: Event): Option<SignalKind> {
    if e.eventId == 10 && tests.isLsass(TargetPath(e))
       && tests.hasMemoryReadAccess(Field(e, "GrantedAccess")) then Some(CredentialAccess)
    else if e.eventId in {8, 25} then Some(Injection)
    else if e.eventId == 11 && tests.isExecutableDrop(TargetPath(e)) then Some(FileDrop)
    else if e.eventId in {12, 13, 14} && tests.isPersistenceTarget(TargetPath(e)) then Some(Persistence)
    else if e.eventId in {19, 20, 21} then Some(Persistence)
    else if e.eventId == 3 && tests.isExternalAddress(Field(e, "DestinationIp")) then Some(Network)
    else if e.eventId == 22 && tests.isExternalDnsQuery(Field(e, "QueryName")) then Some(Network)
    else None
  }

  // ---------- Reading one chain ----------

  predicate Has(signals: seq<Signal>, kind: SignalKind) {
    exists i :: 0 <= i < |signals| && signals[i].kind == kind
  }

  function Required(rule: Rule): set<SignalKind> {
    match rule
    case CredentialExfiltration => {CredentialAccess, Network}
    case InjectionBeacon => {Injection, Network}
    case DropPersistenceBeacon => {FileDrop, Persistence, Network}
  }

  ghost predicate Satisfies(signals: seq<Signal>, rule: Rule) {
    forall kind :: kind in Required(rule) ==> Has(signals, kind)
  }

  function MatchingRules(signals: seq<Signal>): (rules: seq<Rule>)
    ensures Distinct(rules)
  {
    (if Has(signals, CredentialAccess) && Has(signals, Network) then [CredentialExfiltration] else [])
    + (if Has(signals, Injection) && Has(signals, Network) then [InjectionBeacon] else [])
    + (if Has(signals, FileDrop) && Has(signals, Persistence) && Has(signals, Network)
       then [DropPersistenceBeacon] else [])
  }

  /** The rules that fire are exactly those with every required kind of signal present. */
  lemma MatchingRulesExact(signals: seq<Signal>, rule: Rule)
    ensures rule in MatchingRules(signals) <==> Satisfies(signals, rule)
  {
    match rule
    case CredentialExfiltration =>
      assert Satisfies(signals, rule) <==> Has(signals, CredentialAccess) && Has(signals, Network);
    case InjectionBeacon =>
      assert Satisfies(signals, rule) <==> Has(signals, Injection) && Has(signals, Network);
    case DropPersistenceBeacon =>
      assert Satisfies(signals, rule) <==>
             Has(signals, FileDrop) && Has(signals, Persistence) && Has(signals, Network);
  }

  function LastNetworkAddress(signals: seq<Signal>): string {
    if signals == [] then ""
    else if signals[|signals| - 1].kind == Network then signals[|signals| - 1].remoteAddress
    else LastNetworkAddress(signals[..|signals| - 1])
  }

  function BuildAlert(rule: Rule, id: string, chain: Chain): Alert {
    Alert(rule, seq(|chain.signals|, i requires 0 <= i < |chain.signals| => chain.signals[i].detail),
          chain.processId, chain.path, LastNetworkAddress(chain.signals), id)
  }

  predicate IsFresh(s: Signal, now: nat) {
    now <= s.observedAt + CHAIN_WINDOW
  }

  /** What `retain` keeps of a chain's signals. */
  function Fresh(s: seq<Signal>, now: nat): seq<Signal> {
    if s == [] then []
    else (if IsFresh(s[0], now) then [s[0]] else []) + Fresh(s[1..], now)
  }

  function Newest(s: seq<Signal>, n: nat): seq<Signal> {
    if |s| <= n then s else s[|s| - n..]
  }

  // ---------- The specification: one log, never pruned ----------

  datatype Entry =
    | Observed(id: string, at: nat, kind: SignalKind, detail: string, remoteAddress: string,
               processId: Option<nat>, image: string)
    | Raised(id: string, at: nat, alert: Alert)
    | Evicted(id: string, at: nat)

  type Log = seq<Entry>

  /** Everything observed for `id` since its last eviction. */
  ghost function Since(log: Log, id: string): Log {
    if log == [] then []
    else
      var last, before := log[|log| - 1], Since(log[..|log| - 1], id);
      if last.id != id || last.Raised? then before
      else if last.Evicted? then [] else before + [last]
  }

  ghost function SignalOf(e: Entry): Signal
    requires e.Observed?
  {
    Signal(e.kind, e.at, e.detail, e.remoteAddress)
  }

  ghost function SignalsSince(log: Log, id: string): (s: seq<Signal>)
    ensures |s| == |Since(log, id)|
    ensures forall i :: 0 <= i < |s| ==> Since(log, id)[i].Observed? && s[i] == SignalOf(Since(log, id)[i])
  {
    if log == [] then []
    else
      var last, before := log[|log| - 1], SignalsSince(log[..|log| - 1], id);
      if last.id != id || last.Raised? then before
      else if last.Evicted? then [] else before + [SignalOf(last)]
  }

  /** When the alert (id, rule) was last raised since the last eviction of `id`. */
  ghost function LastRaise(log: Log, id: string, rule: Rule): Option<nat> {
    if log == [] then None
    else
      var last := log[|log| - 1];
      if last.id == id && last.Evicted? then None
      else if last.id == id && last.Raised? && last.alert.rule == rule then Some(last.at)
      else LastRaise(log[..|log| - 1], id, rule)
  }

  /** Identity carried by an unbroken run of observations: the newest known process id and image,
      looking back no further than the last silence longer than the window. */
  ghost function Identity(seen: Log): (Option<nat>, string)
    requires forall e :: e in seen ==> e.Observed?
  {
    if seen == [] then (None, "")
    else
      var n := |seen| - 1;
      var last := seen[n];
      var (pid, path) := if n > 0 && last.at <= seen[n - 1].at + CHAIN_WINDOW
        then Identity(seen[..n]) else (None, "");
      (if last.processId.Some? then last.processId else pid, if last.image != "" then last.image else path)
  }

  /** The newest 32 of the signals at most ten minutes old. */
  ghost function Live(s: seq<Signal>, now: nat): seq<Signal> {
    Newest(Fresh(s, now), MAXIMUM_SIGNALS_PER_CHAIN)
  }

  ghost function SpecChain(log: Log, id: string, now: nat): Option<Chain> {
    var live := Live(SignalsSince(log, id), now);
    if live == [] then None
    else
      var (pid, path) := Identity(Since(log, id));
      Some(Chain(pid, path, live[|live| - 1].observedAt, live))
  }

  ghost predicate Suppressed(log: Log, id: string, rule: Rule, now: nat) {
    var last := LastRaise(log, id, rule);
    last.Some? && now < last.value + ALERT_COOLDOWN
  }

  ghost function RaiseAll(log: Log, id: string, rules: seq<Rule>, chain: Chain, now: nat): (r: Log)
    ensures log <= r
    decreases |rules|
  {
    if rules == [] then log
    else RaiseAll(
        if Suppressed(log, id, rules[0], now) then log
        else log + [Raised(id, now, BuildAlert(rules[0], id, chain))],
        id, rules[1..], chain, now)
  }

  ghost function Sighting(tests: Tests, e: Event, now: nat): Entry
    requires Classify(tests, e).Some? && StableCorrelationId(tests, e).Some?
  {
    Observed(StableCorrelationId(tests, e).value, now, Classify(tests, e).value, tests.detail(e),
             RemoteAddress(e), ProcessId(tests, e), Image(e))
  }

  ghost predicate Relevant(tests: Tests, e: Event) {
    Classify(tests, e).Some? && StableCorrelationId(tests, e).Some?
  }

  ghost function Observe(tests: Tests, log: Log, e: Event, now: nat): (r: Log)
    ensures log <= r
  {
    if !Relevant(tests, e) then log
    else
      var seen := log + [Sighting(tests, e, now)];
      var chain := SpecChain(seen, Sighting(tests, e, now).id, now);
      if chain.None? then seen
      else RaiseAll(seen, Sighting(tests, e, now).id, MatchingRules(chain.value.signals), chain.value, now)
  }

  ghost function ObserveAll(tests: Tests, log: Log, events: seq<Event>, now: nat): (r: Log)
    ensures log <= r
  {
    if events == [] then log
    else Observe(tests, ObserveAll(tests, log, events[..|events| - 1], now), events[|events| - 1], now)
  }

  ghost function AlertsIn(entries: Log): seq<Alert> {
    if entries == [] then []
    else AlertsIn(entries[..|entries| - 1])
         + (if entries[|entries| - 1].Raised? then [entries[|entries| - 1].alert] else [])
  }

  ghost function LiveIds(log: Log, now: nat): set<string> {
    set e | e in log && SpecChain(log, e.id, now).Some? :: e.id
  }

  ghost function Evict(log: Log, evicted: seq<string>, now: nat): (r: Log)
    ensures log <= r
  {
    if evicted == [] then log
    else Evict(log, evicted[..|evicted| - 1], now) + [Evicted(evicted[|evicted| - 1], now)]
  }

  /** The next chain to go is one of the least recently seen; ties are broken arbitrarily. */
  ghost predicate IsOldest(log: Log, id: string, now: nat) {
    && id in LiveIds(log, now)
    && forall other :: other in LiveIds(log, now) ==>
         SpecChain(log, id, now).value.lastSeen <= SpecChain(log, other, now).value.lastSeen
  }

  ghost predicate EvictsOldest(log: Log, evicted: seq<string>, now: nat) {
    evicted == [] ||
    var before := Evict(log, evicted[..|evicted| - 1], now);
    && EvictsOldest(log, evicted[..|evicted| - 1], now)
    && |LiveIds(before, now)| > MAXIMUM_CHAINS
    && IsOldest(before, evicted[|evicted| - 1], now)
  }

  /** Evictions happen only above capacity, one oldest chain at a time, and stop at capacity. */
  ghost predicate LegalEvictions(log: Log, evicted: seq<string>, now: nat) {
    && EvictsOldest(log, evicted, now)
    && |LiveIds(Evict(log, evicted, now), now)| <= MAXIMUM_CHAINS
  }

  /** One call of the engine, with the evictions it chose. */
  datatype Call = Call(events: seq<Event>, now: nat, evicted: seq<string>)

  ghost function RunLog(tests: Tests, calls: seq<Call>): Log {
    if calls == [] then []
    else
      var c := calls[|calls| - 1];
      Evict(ObserveAll(tests, RunLog(tests, calls[..|calls| - 1]), c.events, c.now), c.evicted, c.now)
  }

  ghost function LastNow(calls: seq<Call>): nat {
    if calls == [] then 0 else calls[|calls| - 1].now
  }

  ghost predicate LegalRun(tests: Tests, calls: seq<Call>) {
    calls == [] ||
    var before, c := calls[..|calls| - 1], calls[|calls| - 1];
    && LegalRun(tests, before)
    && LastNow(before) <= c.now
    && LegalEvictions(ObserveAll(tests, RunLog(tests, before), c.events, c.now), c.evicted, c.now)
  }

  // ---------- Windows over ordered logs ----------

  ghost predicate Ordered(log: Log, now: nat) {
    && (forall i, j :: 0 <= i < j < |log| ==> log[i].at <= log[j].at)
    && (forall i :: 0 <= i < |log| ==> log[i].at <= now)
  }

  ghost predicate Ascending(s: seq<Signal>, now: nat) {
    && (forall i, j :: 0 <= i < j < |s| ==> s[i].observedAt <= s[j].observedAt)
    && (forall i :: 0 <= i < |s| ==> s[i].observedAt <= now)
  }

  lemma {:induction false} SinceAscends(log: Log, id: string, now: nat)
    requires Ordered(log, now)
    ensures Ascending(SignalsSince(log, id), now)
  {
    if log != [] {
      var before := log[..|log| - 1];
      SinceAscends(before, id, log[|log| - 1].at);
    }
  }

  /** How many leading signals have gone stale. */
  ghost function Stale(s: seq<Signal>, now: nat): (k: nat)
    ensures k <= |s|
    ensures forall i :: 0 <= i < k ==> !IsFresh(s[i], now)
    ensures k < |s| ==> IsFresh(s[k], now)
  {
    if s == [] || IsFresh(s[0], now) then 0 else 1 + Stale(s[1..], now)
  }

  lemma AscendingTail(s: seq<Signal>, bound: nat)
    requires Ascending(s, bound) && s != []
    ensures Ascending(s[1..], bound)
    ensures |s| > 1 ==> s[0].observedAt <= s[1..][0].observedAt
  {
  }

  lemma AscendingPush(s: seq<Signal>, x: Signal, now: nat)
    requires Ascending(s, now) && x.observedAt == now
    ensures Ascending(s + [x], now)
  {
  }

  /** On an ascending sequence the window keeps a suffix. */
  lemma {:induction false} FreshIsSuffix(s: seq<Signal>, now: nat, bound: nat)
    requires Ascending(s, bound)
    ensures Fresh(s, now) == s[Stale(s, now)..]
  {
    hide Ascending;
    if s != [] {
      var t := s[1..];
      AscendingTail(s, bound);
      FreshIsSuffix(t, now, bound);
      if IsFresh(s[0], now) {
        StaleIs(t, now, 0);
        assert Fresh(s, now) == [s[0]] + t;
      } else {
        assert Fresh(s, now) == t[Stale(t, now)..];
      }
    }
  }

  lemma StaleIs(s: seq<Signal>, now: nat, k: nat)
    requires k <= |s|
    requires forall i :: 0 <= i < k ==> !IsFresh(s[i], now)
    requires k < |s| ==> IsFresh(s[k], now)
    ensures Stale(s, now) == k
  {
  }

  /** Where the newest 32 fresh signals begin. */
  ghost function Cut(s: seq<Signal>, now: nat): (k: nat)
    ensures k <= |s|
  {
    if |s| - Stale(s, now) <= MAXIMUM_SIGNALS_PER_CHAIN then Stale(s, now) else |s| - MAXIMUM_SIGNALS_PER_CHAIN
  }

  lemma LiveIsSuffix(s: seq<Signal>, now: nat, bound: nat)
    requires Ascending(s, bound)
    ensures Live(s, now) == s[Cut(s, now)..]
  {
    FreshIsSuffix(s, now, bound);
  }

  lemma StaleOfSuffix(s: seq<Signal>, cut: nat, now: nat, bound: nat)
    requires Ascending(s, bound) && cut <= |s|
    ensures Ascending(s[cut..], bound)
    ensures Stale(s[cut..], now) == if Stale(s, now) <= cut then 0 else Stale(s, now) - cut
  {
    var k := if Stale(s, now) <= cut then 0 else Stale(s, now) - cut;
    var t := s[cut..];
    assert forall i :: 0 <= i < |t| ==> t[i] == s[cut + i];
    if cut < |s| && Stale(s, now) <= cut {
      assert s[Stale(s, now)].observedAt <= s[cut].observedAt;
    }
    StaleIs(t, now, k);
  }

  lemma StaleGrows(s: seq<Signal>, earlier: nat, now: nat)
    requires earlier <= now
    ensures Stale(s, earlier) <= Stale(s, now)
  {
    if Stale(s, now) < |s| {
      assert IsFresh(s[Stale(s, now)], earlier);
    }
  }

  /** Truncating to the ring and pruning later is the same as one look at the whole history. */
  lemma PruneLive(s: seq<Signal>, earlier: nat, now: nat)
    requires Ascending(s, earlier) && earlier <= now
    ensures Fresh(Live(s, earlier), now) == Live(s, now)
  {
    hide Ascending, Live, Fresh, Stale;
    var cut := Cut(s, earlier);
    LiveIsSuffix(s, earlier, earlier);
    LiveIsSuffix(s, now, earlier);
    StaleGrows(s, earlier, now);
    StaleOfSuffix(s, cut, now, earlier);
    var live := s[cut..];
    FreshIsSuffix(live, now, earlier);
    assert live[Stale(live, now)..] == s[cut + Stale(live, now)..];
  }

  lemma PushLive(s: seq<Signal>, x: Signal, now: nat)
    requires Ascending(s, now) && x.observedAt == now
    ensures Live(s + [x], now) == Newest(Live(s, now) + [x], MAXIMUM_SIGNALS_PER_CHAIN)
    ensures Live(s + [x], now) != []
  {
    hide Ascending, Live;
    AscendingPush(s, x, now);
    LiveIsSuffix(s, now, now);
    LiveIsSuffix(s + [x], now, now);
    StaleIs(s + [x], now, Stale(s, now));
    assert (s + [x])[Cut(s, now)..] == s[Cut(s, now)..] + [x];
  }

  lemma LiveIffLastFresh(s: seq<Signal>, now: nat)
    requires Ascending(s, now)
    ensures Live(s, now) != [] <==> s != [] && IsFresh(s[|s| - 1], now)
    ensures Live(s, now) != [] ==> Live(s, now)[|Live(s, now)| - 1] == s[|s| - 1]
  {
    LiveIsSuffix(s, now, now);
    if s != [] && Stale(s, now) < |s| {
      assert s[Stale(s, now)].observedAt <= s[|s| - 1].observedAt;
    }
  }

  // ---------- Reading a log one entry longer ----------

  lemma Snoc(log: Log, e: Entry, id: string)
    ensures Since(log + [e], id) ==
            (if e.id != id || e.Raised? then Since(log, id) else if e.Evicted? then [] else Since(log, id) + [e])
    ensures SignalsSince(log + [e], id) ==
            (if e.id != id || e.Raised? then SignalsSince(log, id)
             else if e.Evicted? then [] else SignalsSince(log, id) + [SignalOf(e)])
    ensures forall rule :: LastRaise(log + [e], id, rule) ==
              (if e.id == id && e.Evicted? then None
               else if e.id == id && e.Raised? && e.alert.rule == rule then Some(e.at)
               else LastRaise(log, id, rule))
  {
    assert (log + [e])[..|log|] == log;
  }

  lemma {:induction false} SinceMember(log: Log, id: string, i: nat) returns (j: nat)
    requires i < |Since(log, id)|
    ensures j < |log| && log[j] == Since(log, id)[i] && log[j].Observed? && log[j].id == id
    ensures forall k :: j <= k < |log| && log[k].id == id ==> !log[k].Evicted?
  {
    var n := |log| - 1;
    if log[n].id == id && log[n].Observed? && i == |Since(log[..n], id)| {
      j := n;
    } else {
      j := SinceMember(log[..n], id, i);
    }
  }

  lemma LiveIdsExact(log: Log, id: string, now: nat)
    ensures id in LiveIds(log, now) <==> SpecChain(log, id, now).Some?
  {
    if SpecChain(log, id, now).Some? {
      assert SignalsSince(log, id) != [];
      var j := SinceMember(log, id, 0);
      assert log[j] in log;
    }
  }

  lemma {:induction false} AlertsConcat(a: Log, b: Log)
    ensures AlertsIn(a + b) == AlertsIn(a) + AlertsIn(b)
  {
    if b == [] {
      assert a + b == a;
    } else {
      var n := |b| - 1;
      AlertsConcat(a, b[..n]);
      assert (a + b)[..|a + b| - 1] == a + b[..n];
    }
  }

  // ---------- What a whole run raises ----------

  ghost predicate RaisedFrom(log: Log, start: nat, id: string, rule: Rule, at: nat) {
    exists j :: start <= j < |log| && log[j].Raised? && log[j].id == id && log[j].alert.rule == rule && log[j].at == at
  }

  /** One event raises a rule exactly when its chain satisfies it and no cooldown is running. */
  lemma {:induction false} RaiseAllExact(log: Log, id: string, rules: seq<Rule>, chain: Chain, now: nat, rule: Rule)
    requires Distinct(rules)
    ensures RaisedFrom(RaiseAll(log, id, rules, chain, now), |log|, id, rule, now) <==>
            rule in rules && !Suppressed(log, id, rule, now)
    decreases |rules|
  {
    assert rules == [] ==> !RaisedFrom(log, |log|, id, rule, now);
    hide RaisedFrom, Suppressed;
    if rules != [] {
      var alert := BuildAlert(rules[0], id, chain);
      assert alert.rule == rules[0];
      hide BuildAlert;
      var e := Raised(id, now, alert);
      var next := if Suppressed(log, id, rules[0], now) then log else log + [e];
      var r := RaiseAll(next, id, rules[1..], chain, now);
      RaiseAllExact(next, id, rules[1..], chain, now, rule);
      assert rule in rules <==> rule == rules[0] || rule in rules[1..];
      SuppressedNext(log, id, alert, now, rule);
      if next != log {
        RaisedNext(log, e, r, rule);
      }
    }
  }

  lemma SuppressedNext(log: Log, id: string, alert: Alert, now: nat, rule: Rule)
    ensures Suppressed(log + [Raised(id, now, alert)], id, rule, now) <==>
            rule == alert.rule || Suppressed(log, id, rule, now)
  {
    hide Since, SignalsSince, LastRaise;
    Snoc(log, Raised(id, now, alert), id);
  }

  lemma RaisedNext(log: Log, e: Entry, r: Log, rule: Rule)
    requires log + [e] <= r && e.Raised?
    ensures RaisedFrom(r, |log|, e.id, rule, e.at) <==>
            e.alert.rule == rule || RaisedFrom(r, |log| + 1, e.id, rule, e.at)
  {
    assert r[|log|] == (log + [e])[|log|] == e;
  }

  lemma ObserveUnfold(tests: Tests, log: Log, e: Event, now: nat) returns (seen: Log, chain: Chain)
    requires Ordered(log, now) && Relevant(tests, e)
    ensures seen == log + [Sighting(tests, e, now)] && Ordered(seen, now)
    ensures SpecChain(seen, Sighting(tests, e, now).id, now) == Some(chain)
    ensures Observe(tests, log, e, now) ==
            RaiseAll(seen, Sighting(tests, e, now).id, MatchingRules(chain.signals), chain, now)
  {
    var s := Sighting(tests, e, now);
    ObserveChain(log, s, now);
    seen, chain := log + [s], SpecChain(log + [s], s.id, now).value;
  }

  lemma ObserveExact(tests: Tests, log: Log, e: Event, now: nat, rule: Rule)
    requires Ordered(log, now) && Relevant(tests, e)
    ensures var seen := log + [Sighting(tests, e, now)];
            var id := Sighting(tests, e, now).id;
            && SpecChain(seen, id, now).Some?
            && (RaisedFrom(Observe(tests, log, e, now), |log|, id, rule, now) <==>
                Satisfies(SpecChain(seen, id, now).value.signals, rule) && !Suppressed(seen, id, rule, now))
  {
    hide SpecChain, LastRaise, RaiseAll, Observe, Ordered, BuildAlert, Classify, StableCorrelationId, MatchingRules;
    var s, r := Sighting(tests, e, now), Observe(tests, log, e, now);
    var seen, chain := ObserveUnfold(tests, log, e, now);
    RaiseAllExact(seen, s.id, MatchingRules(chain.signals), chain, now, rule);
    MatchingRulesExact(chain.signals, rule);
    assert r[|log|] == seen[|log|] == s;
    assert RaisedFrom(r, |log|, s.id, rule, now) <==> RaisedFrom(r, |log| + 1, s.id, rule, now);
  }

  /** Entry i is an alert the specification calls for at that point. */
  ghost predicate JustifiedAt(log: Log, i: nat)
    requires i < |log| && log[i].Raised?
  {
    var e, before := log[i], log[..i];
    var chain := SpecChain(before, e.id, e.at);
    && !Suppressed(before, e.id, e.alert.rule, e.at)
    && chain.Some?
    && Satisfies(chain.value.signals, e.alert.rule)
    && e.alert == BuildAlert(e.alert.rule, e.id, chain.value)
  }

  /** Every rule satisfied right after sighting i was raised then, or was still cooling down. */
  ghost predicate AnsweredAt(log: Log, i: nat, rule: Rule)
    requires i < |log| && log[i].Observed?
  {
    var e, seen := log[i], log[..i + 1];
    var chain := SpecChain(seen, e.id, e.at);
    chain.Some? && Satisfies(chain.value.signals, rule) ==>
      Suppressed(seen, e.id, rule, e.at) || RaisedFrom(log, i, e.id, rule, e.at)
  }

  ghost predicate Audited(log: Log) {
    && (forall i :: 0 <= i < |log| && log[i].Raised? ==> JustifiedAt(log, i))
    && (forall i, rule :: 0 <= i < |log| && log[i].Observed? ==> AnsweredAt(log, i, rule))
  }

  lemma AnsweredLater(log: Log, longer: Log, i: nat, rule: Rule)
    requires log <= longer && i < |log| && log[i].Observed? && AnsweredAt(log, i, rule)
    ensures AnsweredAt(longer, i, rule)
  {
    assert longer[..i + 1] == log[..i + 1];
    if RaisedFrom(log, i, log[i].id, rule, log[i].at) {
      var j :| i <= j < |log| && log[j].Raised? && log[j].id == log[i].id && log[j].alert.rule == rule
        && log[j].at == log[i].at;
      assert longer[j] == log[j];
    }
  }

  lemma JustifiedLater(log: Log, longer: Log, i: nat)
    requires log <= longer && i < |log| && log[i].Raised? && JustifiedAt(log, i)
    ensures JustifiedAt(longer, i)
  {
    assert longer[..i] == log[..i];
  }

  lemma JustifiedHere(log: Log, e: Entry, longer: Log)
    requires log + [e] <= longer && e.Raised? && SpecChain(log, e.id, e.at).Some?
    requires !Suppressed(log, e.id, e.alert.rule, e.at)
    requires var chain := SpecChain(log, e.id, e.at).value;
             Satisfies(chain.signals, e.alert.rule) && e.alert == BuildAlert(e.alert.rule, e.id, chain)
    ensures longer[|log|] == e && JustifiedAt(longer, |log|)
  {
    assert (log + [e])[..|log|] == log;
    JustifiedLater(log + [e], longer, |log|);
  }

  lemma {:induction false} RaiseAllJustified(log: Log, id: string, rules: seq<Rule>, chain: Chain, now: nat)
    requires SpecChain(log, id, now) == Some(chain) && Ordered(log, now)
    requires forall rule :: rule in rules ==> Satisfies(chain.signals, rule)
    ensures var r := RaiseAll(log, id, rules, chain, now);
            && Ordered(r, now)
            && (forall i :: |log| <= i < |r| ==> r[i].Raised? && JustifiedAt(r, i))
    decreases |rules|
  {
    hide JustifiedAt, SpecChain, Satisfies, Suppressed;
    if rules != [] {
      var alert := BuildAlert(rules[0], id, chain);
      assert alert.rule == rules[0];
      hide BuildAlert;
      var e := Raised(id, now, alert);
      var next := if Suppressed(log, id, rules[0], now) then log else log + [e];
      OtherChain(log, e, id, now);
      RaiseAllJustified(next, id, rules[1..], chain, now);
      if next != log {
        JustifiedHere(log, e, RaiseAll(next, id, rules[1..], chain, now));
      }
    }
  }

  lemma ObserveJustified(tests: Tests, log: Log, e: Event, now: nat)
    requires Ordered(log, now) && Relevant(tests, e)
    ensures var r := Observe(tests, log, e, now);
            && Ordered(r, now) && |log| < |r| && r[|log|] == Sighting(tests, e, now)
            && forall i :: |log| < i < |r| ==> r[i].Raised? && JustifiedAt(r, i)
  {
    var s := Sighting(tests, e, now);
    var seen, chain := ObserveUnfold(tests, log, e, now);
    forall rule | rule in MatchingRules(chain.signals) ensures Satisfies(chain.signals, rule) {
      MatchingRulesExact(chain.signals, rule);
    }
    RaiseAllJustified(seen, s.id, MatchingRules(chain.signals), chain, now);
    assert seen[|log|] == s;
  }

  lemma ObserveAnswered(tests: Tests, log: Log, e: Event, now: nat, rule: Rule)
    requires Ordered(log, now) && Relevant(tests, e)
    ensures var r := Observe(tests, log, e, now);
            |log| < |r| && r[|log|] == Sighting(tests, e, now) && AnsweredAt(r, |log|, rule)
  {
    hide SpecChain, Suppressed, Satisfies, Ordered, JustifiedAt, Classify, StableCorrelationId;
    ObserveJustified(tests, log, e, now);
    ObserveExact(tests, log, e, now, rule);
    assert Observe(tests, log, e, now)[..|log| + 1] == log + [Sighting(tests, e, now)];
  }

  lemma ObserveAudited(tests: Tests, log: Log, e: Event, now: nat)
    requires Audited(log) && Ordered(log, now)
    ensures Audited(Observe(tests, log, e, now)) && Ordered(Observe(tests, log, e, now), now)
  {
    if Relevant(tests, e) {
      var r := Observe(tests, log, e, now);
      ObserveJustified(tests, log, e, now);
      forall i | 0 <= i < |r| && r[i].Raised? ensures JustifiedAt(r, i) {
        if i < |log| { JustifiedLater(log, r, i); }
      }
      forall i, rule | 0 <= i < |r| && r[i].Observed? ensures AnsweredAt(r, i, rule) {
        if i < |log| { AnsweredLater(log, r, i, rule); }
        if i == |log| { ObserveAnswered(tests, log, e, now, rule); }
      }
    }
  }

  lemma {:induction false} ObserveAllAudited(tests: Tests, log: Log, events: seq<Event>, now: nat)
    requires Audited(log) && Ordered(log, now)
    ensures Audited(ObserveAll(tests, log, events, now)) && Ordered(ObserveAll(tests, log, events, now), now)
  {
    if events != [] {
      var before := events[..|events| - 1];
      ObserveAllAudited(tests, log, before, now);
      ObserveAudited(tests, ObserveAll(tests, log, before, now), events[|events| - 1], now);
    }
  }

  lemma {:induction false} EvictAudited(log: Log, evicted: seq<string>, now: nat)
    requires Audited(log) && Ordered(log, now)
    ensures Audited(Evict(log, evicted, now)) && Ordered(Evict(log, evicted, now), now)
  {
    if evicted != [] {
      var n := |evicted| - 1;
      var before := Evict(log, evicted[..n], now);
      EvictAudited(log, evicted[..n], now);
      var r := before + [Evicted(evicted[n], now)];
      forall i | 0 <= i < |r| && r[i].Raised? ensures JustifiedAt(r, i) {
        JustifiedLater(before, r, i);
      }
      forall i, rule | 0 <= i < |r| && r[i].Observed? ensures AnsweredAt(r, i, rule) {
        AnsweredLater(before, r, i, rule);
      }
    }
  }

  /** Alert exactness over whole runs: every alert is called for, and every call is answered. */
  lemma {:induction false} RunAudited(tests: Tests, calls: seq<Call>)
    requires LegalRun(tests, calls)
    ensures Audited(RunLog(tests, calls)) && Ordered(RunLog(tests, calls), LastNow(calls))
  {
    if calls != [] {
      var before, c := calls[..|calls| - 1], calls[|calls| - 1];
      RunAudited(tests, before);
      ObserveAllAudited(tests, RunLog(tests, before), c.events, c.now);
      EvictAudited(ObserveAll(tests, RunLog(tests, before), c.events, c.now), c.evicted, c.now);
    }
  }

  lemma {:induction false} LastRaiseCovers(log: Log, i: nat, now: nat)
    requires i < |log| && log[i].Raised? && Ordered(log, now)
    requires forall k :: i < k < |log| && log[k].id == log[i].id ==> !log[k].Evicted?
    ensures var last := LastRaise(log, log[i].id, log[i].alert.rule); last.Some? && log[i].at <= last.value
  {
    var n := |log| - 1;
    if i < n {
      LastRaiseCovers(log[..n], i, now);
    }
  }

  /** Between two alerts of one rule for one process there is a full cooldown or an eviction. */
  lemma AlertSpacing(tests: Tests, calls: seq<Call>, log: Log, i: nat, j: nat)
    requires LegalRun(tests, calls) && log == RunLog(tests, calls)
    requires i < j < |log| && log[i].Raised? && log[j].Raised?
    requires log[i].id == log[j].id && log[i].alert.rule == log[j].alert.rule
    requires forall k :: i < k < j && log[k].id == log[i].id ==> !log[k].Evicted?
    ensures log[i].at + ALERT_COOLDOWN <= log[j].at
  {
    RunAudited(tests, calls);
    assert JustifiedAt(log, j);
    LastRaiseCovers(log[..j], i, LastNow(calls));
  }

  lemma ChainEvidence(log: Log, id: string, now: nat, kind: SignalKind) returns (j: nat)
    requires Ordered(log, now) && SpecChain(log, id, now).Some?
    requires Has(SpecChain(log, id, now).value.signals, kind)
    ensures j < |log| && log[j].Observed? && log[j].id == id && log[j].kind == kind
    ensures log[j].at <= now <= log[j].at + CHAIN_WINDOW
    ensures forall k :: j <= k < |log| && log[k].id == id ==> !log[k].Evicted?
  {
    var s := SignalsSince(log, id);
    var live := Live(s, now);
    var x :| 0 <= x < |live| && live[x].kind == kind;
    SinceAscends(log, id, now);
    LiveIsSuffix(s, now, now);
    var y := Cut(s, now) + x;
    assert live[x] == s[y];
    assert IsFresh(s[y], now) by {
      assert Stale(s, now) <= y && s[Stale(s, now)].observedAt <= s[y].observedAt;
    }
    j := SinceMember(log, id, y);
  }

  lemma JustifiedEvidence(log: Log, now: nat, i: nat, kind: SignalKind) returns (j: nat)
    requires Ordered(log, now) && i < |log| && log[i].Raised? && JustifiedAt(log, i)
    requires kind in Required(log[i].alert.rule)
    ensures j < i && log[j].Observed? && log[j].id == log[i].id && log[j].kind == kind
    ensures log[j].at <= log[i].at <= log[j].at + CHAIN_WINDOW
    ensures forall k :: j <= k < i && log[k].id == log[i].id ==> !log[k].Evicted?
  {
    var before, id, at := log[..i], log[i].id, log[i].at;
    assert Has(SpecChain(before, id, at).value.signals, kind);
    j := ChainEvidence(before, id, at, kind);
    forall k | j <= k < i && log[k].id == id ensures !log[k].Evicted? {
      assert before[k] == log[k];
    }
  }

  /** Every alert rests on each required kind of signal, sighted for that process within the
      last ten minutes and since its last eviction. */
  lemma AlertEvidence(tests: Tests, calls: seq<Call>, log: Log, i: nat, kind: SignalKind) returns (j: nat)
    requires LegalRun(tests, calls) && log == RunLog(tests, calls)
    requires i < |log| && log[i].Raised? && kind in Required(log[i].alert.rule)
    ensures j < i && log[j].Observed? && log[j].id == log[i].id && log[j].kind == kind
    ensures log[j].at <= log[i].at <= log[j].at + CHAIN_WINDOW
    ensures forall k :: j <= k < i && log[k].id == log[i].id ==> !log[k].Evicted?
  {
    RunAudited(tests, calls);
    assert JustifiedAt(log, i);
    j := JustifiedEvidence(log, LastNow(calls), i, kind);
  }

  lemma EvictedChain(log: Log, e: Entry, id: string, now: nat)
    requires e.Evicted?
    ensures SpecChain(log + [e], id, now) == if e.id == id then None else SpecChain(log, id, now)
  {
    hide Since, SignalsSince, LastRaise;
    Snoc(log, e, id);
  }

  lemma {:induction false} EvictChain(log: Log, evicted: seq<string>, id: string, now: nat)
    ensures SpecChain(Evict(log, evicted, now), id, now) == if id in evicted then None else SpecChain(log, id, now)
  {
    if evicted != [] {
      var n := |evicted| - 1;
      EvictChain(log, evicted[..n], id, now);
      EvictedChain(Evict(log, evicted[..n], now), Evicted(evicted[n], now), id, now);
      hide SpecChain;
      assert id in evicted <==> id in evicted[..n] || id == evicted[n];
    }
  }

  lemma EvictLive(log: Log, evicted: seq<string>, id: string, now: nat)
    ensures id in LiveIds(Evict(log, evicted, now), now) <==> id in LiveIds(log, now) && id !in evicted
  {
    EvictChain(log, evicted, id, now);
    LiveIdsExact(log, id, now);
    LiveIdsExact(Evict(log, evicted, now), id, now);
  }

  ghost function LastSeen(log: Log, id: string, now: nat): nat
    requires id in LiveIds(log, now)
  {
    SpecChain(log, id, now).value.lastSeen
  }

  lemma OldestSparesRecent(log: Log, gone: seq<string>, now: nat, oldest: string, survivor: string)
    requires IsOldest(Evict(log, gone, now), oldest, now)
    requires survivor in LiveIds(log, now) && survivor !in gone
    ensures oldest in LiveIds(log, now) && oldest !in gone
    ensures LastSeen(log, oldest, now) <= LastSeen(log, survivor, now)
  {
    EvictLive(log, gone, survivor, now);
    EvictLive(log, gone, oldest, now);
    EvictChain(log, gone, survivor, now);
    EvictChain(log, gone, oldest, now);
  }

  lemma {:induction false} EvictionStep(log: Log, evicted: seq<string>, now: nat, i: nat)
    requires EvictsOldest(log, evicted, now) && i < |evicted|
    ensures IsOldest(Evict(log, evicted[..i], now), evicted[i], now)
    ensures |LiveIds(Evict(log, evicted[..i], now), now)| > MAXIMUM_CHAINS
  {
    hide IsOldest, LiveIds;
    var n := |evicted| - 1;
    if i < n {
      EvictionStep(log, evicted[..n], now, i);
      assert evicted[..n][..i] == evicted[..i];
    }
  }

  /** No chain is evicted twice, and no survivor was seen less recently than an evicted chain. */
  lemma EvictionSparesRecent(log: Log, evicted: seq<string>, now: nat, survivor: string, i: nat)
    requires EvictsOldest(log, evicted, now) && i < |evicted|
    requires survivor in LiveIds(log, now) && survivor !in evicted
    ensures evicted[i] in LiveIds(log, now) && evicted[i] !in evicted[..i]
    ensures LastSeen(log, evicted[i], now) <= LastSeen(log, survivor, now)
    ensures |LiveIds(Evict(log, evicted[..i], now), now)| > MAXIMUM_CHAINS
  {
    EvictionStep(log, evicted, now, i);
    OldestSparesRecent(log, evicted[..i], now, evicted[i], survivor);
  }

  lemma {:induction false} LegalCall(tests: Tests, calls: seq<Call>, n: nat)
    requires LegalRun(tests, calls) && n < |calls|
    ensures LegalEvictions(ObserveAll(tests, RunLog(tests, calls[..n]), calls[n].events, calls[n].now),
                           calls[n].evicted, calls[n].now)
  {
    hide LegalEvictions;
    var last := |calls| - 1;
    if n < last {
      LegalCall(tests, calls[..last], n);
      assert calls[..last][..n] == calls[..n];
    }
  }

  /** In every call of every run, no chain is evicted twice and no survivor was seen less recently
      than an evicted chain. */
  lemma RunSparesRecent(tests: Tests, calls: seq<Call>, n: nat, survivor: string, i: nat)
    requires LegalRun(tests, calls) && n < |calls| && i < |calls[n].evicted| && survivor !in calls[n].evicted
    requires survivor in LiveIds(ObserveAll(tests, RunLog(tests, calls[..n]), calls[n].events, calls[n].now), calls[n].now)
    ensures var c := calls[n];
            var log := ObserveAll(tests, RunLog(tests, calls[..n]), c.events, c.now);
            && c.evicted[i] in LiveIds(log, c.now) && c.evicted[i] !in c.evicted[..i]
            && LastSeen(log, c.evicted[i], c.now) <= LastSeen(log, survivor, c.now)
            && |LiveIds(Evict(log, c.evicted[..i], c.now), c.now)| > MAXIMUM_CHAINS
  {
    hide LegalRun, RunLog, ObserveAll, LiveIds, LastSeen;
    var c := calls[n];
    var log := ObserveAll(tests, RunLog(tests, calls[..n]), c.events, c.now);
    LegalCall(tests, calls, n);
    EvictionSparesRecent(log, c.evicted, c.now, survivor, i);
  }

  // ---------- The engine's maps against the log ----------

  ghost function ChainAt(chains: map<string, Chain>, id: string): Option<Chain> {
    if id in chains then Some(chains[id]) else None
  }

  /** A missing entry is one that could no longer suppress anything. */
  ghost predicate ReportKnown(reported: map<(string, Rule), nat>, log: Log, id: string, rule: Rule, now: nat) {
    var last := LastRaise(log, id, rule);
    if (id, rule) in reported then last == Some(reported[(id, rule)])
    else last.Some? ==> last.value + ALERT_COOLDOWN < now
  }

  ghost predicate Refines(chains: map<string, Chain>, reported: map<(string, Rule), nat>, log: Log, now: nat) {
    && (forall id :: ChainAt(chains, id) == SpecChain(log, id, now))
    && (forall id, rule :: ReportKnown(reported, log, id, rule, now))
  }

  lemma LiveIdsAreKeys(chains: map<string, Chain>, reported: map<(string, Rule), nat>, log: Log, now: nat)
    requires Refines(chains, reported, log, now)
    ensures LiveIds(log, now) == chains.Keys
  {
    forall id ensures id in LiveIds(log, now) <==> id in chains.Keys {
      LiveIdsExact(log, id, now);
      assert ChainAt(chains, id) == SpecChain(log, id, now);
    }
  }

  lemma KeyIsOldest(chains: map<string, Chain>, reported: map<(string, Rule), nat>, log: Log, oldest: string,
                    now: nat)
    requires Refines(chains, reported, log, now)
    requires oldest in chains.Keys
    requires forall id :: id in chains.Keys ==> chains[oldest].lastSeen <= chains[id].lastSeen
    ensures IsOldest(log, oldest, now) && |LiveIds(log, now)| == |chains|
  {
    LiveIdsAreKeys(chains, reported, log, now);
    forall id | id in chains.Keys ensures SpecChain(log, id, now) == Some(chains[id]) {
      assert ChainAt(chains, id) == SpecChain(log, id, now);
    }
    assert |chains.Keys| == |chains|;
  }

  lemma OldestExists(chains: map<string, Chain>)
    requires |chains| > 0
    ensures exists oldest :: oldest in chains.Keys
              && forall id :: id in chains.Keys ==> chains[oldest].lastSeen <= chains[id].lastSeen
  {
    var seen := map id | id in chains :: chains[id].lastSeen;
    assert |chains.Keys| > 0;
    LeastExists(chains.Keys, seen);
    var k :| k in chains.Keys && forall j :: j in chains.Keys ==> seen[k] <= seen[j];
    forall id | id in chains.Keys ensures chains[k].lastSeen <= chains[id].lastSeen {
      assert seen[k] <= seen[id];
    }
  }

  lemma RemoveKey<K, V>(m: map<K, V>, k: K)
    requires k in m
    ensures |m - {k}| == |m| - 1
  {
    assert (m - {k}).Keys == m.Keys - {k};
    assert |m.Keys - {k}| == |m| - 1;
  }

  lemma PruneChain(log: Log, id: string, earlier: nat, now: nat)
    requires Ordered(log, earlier) && earlier <= now
    ensures SpecChain(log, id, now) ==
            match SpecChain(log, id, earlier)
            case None => None
            case Some(c) => if Fresh(c.signals, now) == [] then None else Some(c.(signals := Fresh(c.signals, now)))
  {
    SinceAscends(log, id, earlier);
    var s := SignalsSince(log, id);
    PruneLive(s, earlier, now);
    LiveIffLastFresh(s, earlier);
    assert Ascending(s, now);
    LiveIffLastFresh(s, now);
  }

  /** A chain after one more sighting, or the chain that sighting starts. */
  ghost function NextChain(chain: Option<Chain>, e: Entry): Chain
    requires e.Observed?
  {
    var c := if chain.Some? then chain.value else Chain(None, "", e.at, []);
    Chain(if e.processId.Some? then e.processId else c.processId, if e.image != "" then e.image else c.path, e.at,
          Newest(c.signals + [SignalOf(e)], MAXIMUM_SIGNALS_PER_CHAIN))
  }

  /** The carried identity survives to the next sighting exactly when the chain does. */
  lemma IdentityStep(seen: Log, e: Entry)
    requires e.Observed? && forall x :: x in seen ==> x.Observed?
    ensures var joined := seen != [] && e.at <= seen[|seen| - 1].at + CHAIN_WINDOW;
            Identity(seen + [e]) ==
            (if e.processId.Some? then e.processId else if joined then Identity(seen).0 else None,
             if e.image != "" then e.image else if joined then Identity(seen).1 else "")
  {
    assert (seen + [e])[..|seen|] == seen;
  }

  lemma ObserveSignals(log: Log, e: Entry, now: nat)
    requires Ordered(log, now) && e.Observed? && e.at == now
    ensures Ordered(log + [e], now)
    ensures var live := Live(SignalsSince(log, e.id), now);
            var next := Live(SignalsSince(log + [e], e.id), now);
            && next == Newest(live + [SignalOf(e)], MAXIMUM_SIGNALS_PER_CHAIN)
            && next != [] && next[|next| - 1] == SignalOf(e)
  {
    hide Since, SignalsSince, LastRaise, Live, Ascending;
    Snoc(log, e, e.id);
    SinceAscends(log, e.id, now);
    PushLive(SignalsSince(log, e.id), SignalOf(e), now);
  }

  lemma ObserveIdentity(log: Log, e: Entry, now: nat)
    requires Ordered(log, now) && e.Observed? && e.at == now
    ensures var live, was := Live(SignalsSince(log, e.id), now), Identity(Since(log, e.id));
            Identity(Since(log + [e], e.id)) ==
            (if e.processId.Some? then e.processId else if live != [] then was.0 else None,
             if e.image != "" then e.image else if live != [] then was.1 else "")
  {
    hide LastRaise, Live, Ascending, Identity;
    Snoc(log, e, e.id);
    SinceAscends(log, e.id, now);
    LiveIffLastFresh(SignalsSince(log, e.id), now);
    IdentityStep(Since(log, e.id), e);
  }

  lemma ObserveChain(log: Log, e: Entry, now: nat)
    requires Ordered(log, now) && e.Observed? && e.at == now
    ensures Ordered(log + [e], now)
    ensures SpecChain(log + [e], e.id, now) == Some(NextChain(SpecChain(log, e.id, now), e))
  {
    ObserveSignals(log, e, now);
    ObserveIdentity(log, e, now);
  }

  lemma OtherChain(log: Log, e: Entry, id: string, now: nat)
    requires e.id != id || e.Raised?
    ensures SpecChain(log + [e], id, now) == SpecChain(log, id, now)
  {
    hide Since, SignalsSince, LastRaise;
    Snoc(log, e, id);
  }

  lemma AlertsSplit(a: Log, b: Log, c: Log)
    requires a <= b <= c
    ensures AlertsIn(c[|a|..]) == AlertsIn(b[|a|..]) + AlertsIn(c[|b|..])
  {
    assert c[|a|..] == b[|a|..] + c[|b|..];
    AlertsConcat(b[|a|..], c[|b|..]);
  }

  lemma AlertsOfOne(a: Log, c: Log, raised: seq<Alert>)
    requires if raised == [] then c == a
             else |c| == |a| + 1 && a <= c && c[|a|].Raised? && raised == [c[|a|].alert]
    ensures AlertsIn(c[|a|..]) == raised
  {
    if c != a {
      assert c[|a|..] == [c[|a|]];
      assert [c[|a|]][..0] == [];
    }
  }

  lemma AlertsAfter(a: Log, e: Entry, c: Log)
    requires a + [e] <= c && !e.Raised?
    ensures AlertsIn(c[|a|..]) == AlertsIn(c[|a| + 1..])
  {
    assert c[|a|..] == [e] + c[|a| + 1..];
    AlertsConcat([e], c[|a| + 1..]);
  }

  lemma {:induction false} EvictionsAreSilent(log: Log, evicted: seq<string>, now: nat)
    ensures AlertsIn(Evict(log, evicted, now)[|log|..]) == []
  {
    if evicted != [] {
      var n := |evicted| - 1;
      EvictionsAreSilent(log, evicted[..n], now);
      var before := Evict(log, evicted[..n], now);
      assert Evict(log, evicted, now)[|log|..] == before[|log|..] + [Evicted(evicted[n], now)];
      AlertsConcat(before[|log|..], [Evicted(evicted[n], now)]);
    }
  }

  lemma RaiseKeeps(chains: map<string, Chain>, reported: map<(string, Rule), nat>, log: Log, id: string,
                   alert: Alert, now: nat)
    requires Ordered(log, now) && Refines(chains, reported, log, now)
    ensures var log' := log + [Raised(id, now, alert)];
            Ordered(log', now) && Refines(chains, reported[(id, alert.rule) := now], log', now)
  {
    var e := Raised(id, now, alert);
    assert Ordered(log + [e], now);
    hide SpecChain, LastRaise, Ordered, ReportKnown;
    forall other ensures ChainAt(chains, other) == SpecChain(log + [e], other, now) {
      OtherChain(log, e, other, now);
    }
    var reported' := reported[(id, alert.rule) := now];
    forall other, rule ensures ReportKnown(reported', log + [e], other, rule, now) {
      assert ReportKnown(reported, log, other, rule, now);
      RaisedReport(reported, log, id, alert, other, rule, now);
    }
  }

  lemma RaisedReport(reported: map<(string, Rule), nat>, log: Log, id: string, alert: Alert, other: string, rule: Rule, now: nat)
    requires ReportKnown(reported, log, other, rule, now)
    ensures ReportKnown(reported[(id, alert.rule) := now], log + [Raised(id, now, alert)], other, rule, now)
  {
    hide Since, SignalsSince, LastRaise;
    Snoc(log, Raised(id, now, alert), other);
  }

  lemma EvictKeeps(chains: map<string, Chain>, reported: map<(string, Rule), nat>, log: Log, id: string, now: nat)
    requires Ordered(log, now) && Refines(chains, reported, log, now)
    ensures var log' := log + [Evicted(id, now)];
            && Ordered(log', now)
            && Refines(chains - {id}, map key | key in reported && key.0 != id :: reported[key], log', now)
  {
    var e := Evicted(id, now);
    assert Ordered(log + [e], now);
    hide SpecChain, LastRaise, Ordered, ReportKnown;
    forall other ensures ChainAt(chains - {id}, other) == SpecChain(log + [e], other, now) {
      EvictedChain(log, e, other, now);
      assert ChainAt(chains, other) == SpecChain(log, other, now);
    }
    var reported' := map key | key in reported && key.0 != id :: reported[key];
    forall other, rule ensures ReportKnown(reported', log + [e], other, rule, now) {
      assert ReportKnown(reported, log, other, rule, now);
      EvictedReport(reported, log, id, other, rule, now);
    }
  }

  lemma EvictedReport(reported: map<(string, Rule), nat>, log: Log, id: string, other: string, rule: Rule, now: nat)
    requires ReportKnown(reported, log, other, rule, now)
    ensures ReportKnown(map key | key in reported && key.0 != id :: reported[key], log + [Evicted(id, now)], other, rule, now)
  {
    hide Since, SignalsSince, LastRaise;
    Snoc(log, Evicted(id, now), other);
  }

  lemma ObserveKeeps(chains: map<string, Chain>, reported: map<(string, Rule), nat>, log: Log, e: Entry, now: nat)
    requires Ordered(log, now) && Refines(chains, reported, log, now) && e.Observed? && e.at == now
    ensures var chain := NextChain(ChainAt(chains, e.id), e);
            && Ordered(log + [e], now) && Refines(chains[e.id := chain], reported, log + [e], now)
            && SpecChain(log + [e], e.id, now) == Some(chain)
  {
    ObserveChain(log, e, now);
    assert ChainAt(chains, e.id) == SpecChain(log, e.id, now);
    var chains' := chains[e.id := NextChain(ChainAt(chains, e.id), e)];
    hide SpecChain, NextChain, LastRaise, Ordered;
    forall other ensures ChainAt(chains', other) == SpecChain(log + [e], other, now) {
      if other != e.id { OtherChain(log, e, other, now); }
      assert ChainAt(chains, other) == SpecChain(log, other, now);
    }
    forall other, rule ensures ReportKnown(reported, log + [e], other, rule, now) {
      assert ReportKnown(reported, log, other, rule, now);
      SightingReportsNothing(reported, log, e, other, rule, now);
    }
  }

  lemma SightingReportsNothing(reported: map<(string, Rule), nat>, log: Log, e: Entry, id: string, rule: Rule, now: nat)
    requires e.Observed? && ReportKnown(reported, log, id, rule, now)
    ensures ReportKnown(reported, log + [e], id, rule, now)
  {
    hide Since, SignalsSince;
    Snoc(log, e, id);
  }

  lemma ExtendRun(tests: Tests, calls: seq<Call>, call: Call)
    requires LegalRun(tests, calls) && LastNow(calls) <= call.now
    requires LegalEvictions(ObserveAll(tests, RunLog(tests, calls), call.events, call.now), call.evicted, call.now)
    ensures LegalRun(tests, calls + [call]) && LastNow(calls + [call]) == call.now
    ensures RunLog(tests, calls + [call]) ==
            Evict(ObserveAll(tests, RunLog(tests, calls), call.events, call.now), call.evicted, call.now)
  {
    assert (calls + [call])[..|calls|] == calls;
  }

  // ---------- The engine ----------

  class BehaviorChainEngine {
    const tests: Tests
    var chains: map<string, Chain>
    var reported: map<(string, Rule), nat>
    ghost var calls: seq<Call>
    ghost var log: Log

    ghost predicate Consistent(now: nat)
      reads this
    {
      Ordered(log, now) && Refines(chains, reported, log, now)
    }

    /** The state is the one some legal run of calls leads to. */
    ghost predicate Valid()
      reads this
    {
      && LegalRun(tests, calls)
      && log == RunLog(tests, calls)
      && Consistent(LastNow(calls))
      && |chains| <= MAXIMUM_CHAINS
    }

    constructor (tests: Tests)
      ensures Valid() && calls == [] && this.tests == tests
    {
      this.tests := tests;
      chains, reported := map[], map[];
      calls, log := [], [];
    }

    method Prune(ghost earlier: nat, now: nat)
      requires Consistent(earlier) && earlier <= now
      modifies this`chains, this`reported
      ensures Consistent(now)
    {
      ghost var before := chains;
      chains := map id | id in chains && Fresh(chains[id].signals, now) != []
        :: chains[id].(signals := Fresh(chains[id].signals, now));
      reported := map key | key in reported && now <= reported[key] + ALERT_COOLDOWN :: reported[key];
      forall id ensures ChainAt(chains, id) == SpecChain(log, id, now) {
        PruneChain(log, id, earlier, now);
        assert ChainAt(before, id) == SpecChain(log, id, earlier);
      }
      forall id, rule ensures ReportKnown(reported, log, id, rule, now) {
        assert old(ReportKnown(reported, log, id, rule, earlier));
      }
    }

    /** Raises one alert unless its cooldown is running. */
    method RaiseRule(id: string, rule: Rule, chain: Chain, now: nat) returns (raised: seq<Alert>)
      requires Consistent(now)
      modifies this`reported, this`log
      ensures Consistent(now)
      ensures log == if Suppressed(old(log), id, rule, now) then old(log)
                     else old(log) + [Raised(id, now, BuildAlert(rule, id, chain))]
      ensures raised == if Suppressed(old(log), id, rule, now) then [] else [BuildAlert(rule, id, chain)]
    {
      assert ReportKnown(reported, log, id, rule, now);
      if (id, rule) in reported && now < reported[(id, rule)] + ALERT_COOLDOWN {
        return [];
      }
      var alert := BuildAlert(rule, id, chain);
      RaiseKeeps(chains, reported, log, id, alert, now);
      reported := reported[(id, rule) := now];
      log := log + [Raised(id, now, alert)];
      raised := [alert];
    }

    /** Raises what the rules call for and the cooldown allows. */
    method RaiseRules(id: string, rules: seq<Rule>, chain: Chain, now: nat) returns (alerts: seq<Alert>)
      requires Consistent(now)
      modifies this`reported, this`log
      ensures Consistent(now)
      ensures log == RaiseAll(old(log), id, rules, chain, now)
      ensures alerts == AlertsIn(log[|old(log)|..])
    {
      hide Refines, Ordered, Suppressed, BuildAlert, SpecChain, AlertsIn;
      alerts := [];
      AlertsOfOne(log, log, []);
      for i := 0 to |rules|
        invariant old(log) <= log && Consistent(now)
        invariant RaiseAll(log, id, rules[i..], chain, now) == RaiseAll(old(log), id, rules, chain, now)
        invariant alerts == AlertsIn(log[|old(log)|..])
      {
        ghost var before := log;
        var raised := RaiseRule(id, rules[i], chain, now);
        assert rules[i..][0] == rules[i] && rules[i..][1..] == rules[i + 1..];
        AlertsSplit(old(log), before, log);
        AlertsOfOne(before, log, raised);
        alerts := alerts + raised;
      }
    }

    /** The ring: push at the back, pop at the front while too long. */
    static method PushBack(ring: seq<Signal>, x: Signal) returns (signals: seq<Signal>)
      ensures signals == Newest(ring + [x], MAXIMUM_SIGNALS_PER_CHAIN)
    {
      signals := ring + [x];
      while |signals| > MAXIMUM_SIGNALS_PER_CHAIN
        invariant Newest(signals, MAXIMUM_SIGNALS_PER_CHAIN) == Newest(ring + [x], MAXIMUM_SIGNALS_PER_CHAIN)
      {
        signals := signals[1..];
      }
    }

    /** Appends one sighting to its chain, creating the chain when there is none. */
    method RecordSighting(id: string, kind: SignalKind, e: Event, now: nat) returns (chain: Chain)
      requires Consistent(now)
      requires StableCorrelationId(tests, e) == Some(id) && Classify(tests, e) == Some(kind)
      modifies this`chains, this`log
      ensures Consistent(now)
      ensures log == old(log) + [Sighting(tests, e, now)]
      ensures SpecChain(log, id, now) == Some(chain)
    {
      ghost var sighting := Sighting(tests, e, now);
      var pid, image := ProcessId(tests, e), Image(e);
      chain := if id in chains then chains[id] else Chain(pid, image, now, []);
      chain := chain.(lastSeen := now, processId := if pid.Some? then pid else chain.processId);
      if image != "" {
        chain := chain.(path := image);
      }
      var signals := PushBack(chain.signals, Signal(kind, now, tests.detail(e), RemoteAddress(e)));
      chain := chain.(signals := signals);
      assert chain == NextChain(ChainAt(chains, id), sighting);
      ObserveKeeps(chains, reported, log, sighting, now);
      chains := chains[id := chain];
      log := log + [sighting];
    }

    /** One iteration of the event loop. */
    method IngestOne(e: Event, now: nat) returns (alerts: seq<Alert>)
      requires Consistent(now)
      modifies this`chains, this`reported, this`log
      ensures Consistent(now)
      ensures log == Observe(tests, old(log), e, now)
      ensures alerts == AlertsIn(log[|old(log)|..])
    {
      hide Refines, Ordered, Classify, StableCorrelationId, SpecChain, RaiseAll, MatchingRules, AlertsIn, Image,
        ProcessId, RemoteAddress;
      var kind, id := Classify(tests, e), StableCorrelationId(tests, e);
      if kind.None? || id.None? {
        AlertsOfOne(log, log, []);
        return [];
      }
      var chain := RecordSighting(id.value, kind.value, e, now);
      ghost var seen := log;
      alerts := RaiseRules(id.value, MatchingRules(chain.signals), chain, now);
      AlertsAfter(old(log), Sighting(tests, e, now), log);
    }

    method IngestEvents(events: seq<Event>, now: nat) returns (alerts: seq<Alert>)
      requires Consistent(now)
      modifies this`chains, this`reported, this`log
      ensures Consistent(now)
      ensures log == ObserveAll(tests, old(log), events, now)
      ensures alerts == AlertsIn(log[|old(log)|..])
    {
      alerts := [];
      for i := 0 to |events|
        invariant Consistent(now) && old(log) <= log
        invariant log == ObserveAll(tests, old(log), events[..i], now)
        invariant alerts == AlertsIn(log[|old(log)|..])
      {
        ghost var before := log;
        var raised := IngestOne(events[i], now);
        assert events[..i + 1][..i] == events[..i];
        AlertsSplit(old(log), before, log);
        alerts := alerts + raised;
      }
      assert events[..|events|] == events;
    }

    /** Removes one least recently seen chain and its cooldowns. */
    method EvictOldest(now: nat) returns (oldest: string)
      requires Consistent(now) && |chains| > MAXIMUM_CHAINS
      modifies this`chains, this`reported, this`log
      ensures Consistent(now) && |chains| == old(|chains|) - 1
      ensures IsOldest(old(log), oldest, now) && |LiveIds(old(log), now)| > MAXIMUM_CHAINS
      ensures log == old(log) + [Evicted(oldest, now)]
    {
      OldestExists(chains);
      oldest :| oldest in chains.Keys
        && forall id :: id in chains.Keys ==> chains[oldest].lastSeen <= chains[id].lastSeen;
      KeyIsOldest(chains, reported, log, oldest, now);
      EvictKeeps(chains, reported, log, oldest, now);
      RemoveKey(chains, oldest);
      chains := chains - {oldest};
      reported := map key | key in reported && key.0 != oldest :: reported[key];
      log := log + [Evicted(oldest, now)];
    }

    method EnforceCapacity(now: nat) returns (ghost evicted: seq<string>)
      requires Consistent(now)
      modifies this`chains, this`reported, this`log
      ensures Consistent(now) && |chains| <= MAXIMUM_CHAINS
      ensures LegalEvictions(old(log), evicted, now) && log == Evict(old(log), evicted, now)
    {
      evicted := [];
      while |chains| > MAXIMUM_CHAINS
        invariant Consistent(now)
        invariant EvictsOldest(old(log), evicted, now) && log == Evict(old(log), evicted, now)
        decreases |chains|
      {
        var oldest := EvictOldest(now);
        assert (evicted + [oldest])[..|evicted|] == evicted;
        evicted := evicted + [oldest];
      }
      LiveIdsAreKeys(chains, reported, log, now);
      assert |chains.Keys| == |chains|;
    }

    method IngestAt(events: seq<Event>, now: nat) returns (alerts: seq<Alert>, ghost evicted: seq<string>)
      requires Valid() && LastNow(calls) <= now
      modifies this
      ensures Valid()
      ensures calls == old(calls) + [Call(events, now, evicted)] && old(log) <= log
      ensures alerts == AlertsIn(log[|old(log)|..])
    {
      hide Refines, Ordered, LegalEvictions;
      Prune(LastNow(calls), now);
      alerts := IngestEvents(events, now);
      ghost var observed := log;
      evicted := EnforceCapacity(now);
      EvictionsAreSilent(observed, evicted, now);
      AlertsSplit(old(log), observed, log);
      ExtendRun(tests, calls, Call(events, now, evicted));
      calls := calls + [Call(events, now, evicted)];
    }
  }
}
