/**
 * Properties of the breaker over sequences of calls: how recorded failures
 * add up, when the gate opens and when it recovers, the state a restarted
 * breaker can be stuck in, the consistency between timestamp and counter
 * that every run keeps, and the isolation of breakers sharing a store.
 */
module BreakerProperties {
  import opened Wrappers
  import opened JavaInt
  import opened CircuitBreaker

  /** A failure seen by the recorder: whether it matched the configured class, and when. */
  datatype FailureEvent = FailureEvent(matched: bool, at: int)

  /** A call on the breaker: the gate at some time, or the recorder with a classified failure. */
  datatype Call = Gate(now: int) | Record(failure: FailureEvent)

  /** The snapshot after recording the failures in order. */
  function RecordAll(config: Config, s: Snapshot, failures: seq<FailureEvent>): Snapshot
    decreases |failures|
  {
    if failures == [] then s
    else RecordAll(config, TripStep(config, s, failures[0].matched, failures[0].at), failures[1..])
  }

  function MatchingCount(failures: seq<FailureEvent>): nat
    decreases |failures|
  {
    if failures == [] then 0
    else (if failures[0].matched then 1 else 0) + MatchingCount(failures[1..])
  }

  /** The time of the last matching failure, if any failure matched. */
  function LastMatchAt(failures: seq<FailureEvent>): (r: Option<int>)
    ensures r.Some? <==> MatchingCount(failures) > 0
    decreases |failures|
  {
    if failures == [] then None
    else
      var later := LastMatchAt(failures[1..]);
      if later.Some? then later
      else if failures[0].matched then Some(failures[0].at)
      else None
  }

  /**
   * Recording failures on a reachable store adds exactly the matching ones to
   * the counter and touches no other key. The timestamp is that of the last
   * matching failure when the final count reaches the threshold, and is left
   * alone when it does not.
   */
  lemma {:induction false} RecordAllCounts(config: Config, s: Snapshot, failures: seq<FailureEvent>)
    requires s.available
    requires StoredCount(config, s.entries) as int + MatchingCount(failures) <= MAX_INT
    ensures RecordAll(config, s, failures).available
    ensures StoredCount(config, RecordAll(config, s, failures).entries) as int
      == StoredCount(config, s.entries) as int + MatchingCount(failures)
    ensures RecordAll(config, s, failures).entries - {FailureCountKey(config.breakerName)}
      == s.entries - {FailureCountKey(config.breakerName)}
    ensures MatchingCount(failures) == 0 ==> RecordAll(config, s, failures) == s
    ensures (StoredCount(config, s.entries) as int + MatchingCount(failures) >= config.tripThreshold as int
      && MatchingCount(failures) > 0) ==> RecordAll(config, s, failures).trippedOn == LastMatchAt(failures)
    ensures StoredCount(config, s.entries) as int + MatchingCount(failures) < config.tripThreshold as int
      ==> RecordAll(config, s, failures).trippedOn == s.trippedOn
    decreases |failures|
  {
    if failures != [] {
      var f, rest := failures[0], failures[1..];
      var s1 := TripStep(config, s, f.matched, f.at);
      RecordAllCounts(config, s1, rest);
      assert RecordAll(config, s, failures) == RecordAll(config, s1, rest);
    }
  }

  /** While fewer failures than the threshold have matched, the gate lets everything through and changes nothing. */
  lemma BelowThresholdAlwaysPasses(config: Config, s: Snapshot, failures: seq<FailureEvent>, now: int)
    requires s.available
    requires StoredCount(config, s.entries) as int + MatchingCount(failures) < config.tripThreshold as int
    ensures FilterStep(config, RecordAll(config, s, failures), now).passes
    ensures FilterStep(config, RecordAll(config, s, failures), now).next == RecordAll(config, s, failures)
  {
    RecordAllCounts(config, s, failures);
  }

  /** Once enough failures matched, the gate stays open until the cooldown after the last of them has passed. */
  lemma OpensAtThreshold(config: Config, s: Snapshot, failures: seq<FailureEvent>, now: int)
    requires s.available
    requires MatchingCount(failures) > 0
    requires StoredCount(config, s.entries) as int + MatchingCount(failures) <= MAX_INT
    requires StoredCount(config, s.entries) as int + MatchingCount(failures) >= config.tripThreshold as int
    requires now - LastMatchAt(failures).value <= config.tripResetTime
    ensures !FilterStep(config, RecordAll(config, s, failures), now).passes
    ensures FilterStep(config, RecordAll(config, s, failures), now).next == RecordAll(config, s, failures)
  {
    RecordAllCounts(config, s, failures);
  }

  /**
   * After the cooldown the gate lets one payload through, clears the timestamp
   * and resets the counter to 0; with a positive threshold every later call
   * then passes as well.
   */
  lemma RecoversAfterCooldown(config: Config, s: Snapshot, failures: seq<FailureEvent>, now: int, later: int)
    requires s.available
    requires MatchingCount(failures) > 0
    requires StoredCount(config, s.entries) as int + MatchingCount(failures) <= MAX_INT
    requires StoredCount(config, s.entries) as int + MatchingCount(failures) >= config.tripThreshold as int
    requires now - LastMatchAt(failures).value > config.tripResetTime
    ensures FilterStep(config, RecordAll(config, s, failures), now).passes
    ensures FilterStep(config, RecordAll(config, s, failures), now).next.trippedOn.None?
    ensures StoredCount(config, FilterStep(config, RecordAll(config, s, failures), now).next.entries) == 0
    ensures config.tripThreshold > 0 ==>
      FilterStep(config, FilterStep(config, RecordAll(config, s, failures), now).next, later).passes
  {
    RecordAllCounts(config, s, failures);
  }

  /** Whether the gate rejects every call at the given times, starting from `s`. */
  predicate AllRejected(config: Config, s: Snapshot, times: seq<int>)
    decreases |times|
  {
    times == [] ||
    (!FilterStep(config, s, times[0]).passes && AllRejected(config, FilterStep(config, s, times[0]).next, times[1..]))
  }

  /**
   * A breaker without a timestamp whose counter is at or above the threshold — for
   * instance a new breaker object over a persistent store that kept the count
   * of an earlier run — rejects every call, however much time passes, until a
   * failure is recorded again.
   */
  lemma {:induction false} StuckOpenWithoutTimestamp(config: Config, s: Snapshot, times: seq<int>)
    requires s.trippedOn.None?
    requires ReadCount(config, s) >= config.tripThreshold
    ensures AllRejected(config, s, times)
    decreases |times|
  {
    if times != [] {
      StuckOpenWithoutTimestamp(config, s, times[1..]);
    }
  }

  /**
   * The consistency the breaker keeps between its object and the store: the
   * stored count is never negative, and a timestamp is only present while the
   * stored count is at or above the threshold.
   */
  predicate Consistent(config: Config, s: Snapshot) {
    && StoredCount(config, s.entries) >= 0
    && (s.trippedOn.Some? ==> StoredCount(config, s.entries) >= config.tripThreshold)
  }

  /** The number of failures among the calls. */
  function RecordCount(calls: seq<Call>): nat
    decreases |calls|
  {
    if calls == [] then 0 else (if calls[0].Record? then 1 else 0) + RecordCount(calls[1..])
  }

  /** The snapshot after the calls, in order, each gate or recorder call taken as one atomic step. */
  function Run(config: Config, s: Snapshot, calls: seq<Call>): Snapshot
    decreases |calls|
  {
    if calls == [] then s
    else
      var next := match calls[0]
        case Gate(now) => FilterStep(config, s, now).next
        case Record(f) => TripStep(config, s, f.matched, f.at);
      Run(config, next, calls[1..])
  }

  /**
   * Every run of gate and recorder calls keeps the breaker consistent, as long
   * as the counter cannot pass the largest Java `int`; the counter grows by at
   * most one per recorded failure, and no other key of the store changes.
   */
  lemma {:induction false} RunKeepsConsistent(config: Config, s: Snapshot, calls: seq<Call>)
    requires Consistent(config, s)
    requires StoredCount(config, s.entries) as int + RecordCount(calls) <= MAX_INT
    ensures Consistent(config, Run(config, s, calls))
    ensures StoredCount(config, Run(config, s, calls).entries) as int <= StoredCount(config, s.entries) as int + RecordCount(calls)
    ensures Run(config, s, calls).entries - {FailureCountKey(config.breakerName)} == s.entries - {FailureCountKey(config.breakerName)}
    decreases |calls|
  {
    if calls != [] {
      var next := match calls[0]
        case Gate(now) => FilterStep(config, s, now).next
        case Record(f) => TripStep(config, s, f.matched, f.at);
      assert Consistent(config, next);
      RunKeepsConsistent(config, next, calls[1..]);
    }
  }

  /**
   * Breakers with different names that share one store never disturb each
   * other's counter, whatever either of them does.
   */
  lemma OtherBreakersUntouched(a: Config, b: Config, s: Snapshot, matched: bool, now: int)
    requires a.breakerName != b.breakerName
    ensures StoredCount(b, TripStep(a, s, matched, now).entries) == StoredCount(b, s.entries)
    ensures StoredCount(b, FilterStep(a, s, now).next.entries) == StoredCount(b, s.entries)
  {
    var keyA, keyB := FailureCountKey(a.breakerName), FailureCountKey(b.breakerName);
    if keyA == keyB {
      FailureCountKeyInjective(a.breakerName, b.breakerName);
    }
    assert keyB in TripStep(a, s, matched, now).entries - {keyA} <==> keyB in s.entries - {keyA};
    assert keyB in FilterStep(a, s, now).next.entries - {keyA} <==> keyB in s.entries - {keyA};
  }

  /**
   * The counter is a Java `int`: a matching failure recorded at the largest
   * count wraps it to the smallest, after which the gate reads far fewer
   * failures than any threshold above it and lets traffic through.
   */
  lemma CounterWrapsAtMaxInt(config: Config, s: Snapshot, now: int, later: int)
    requires s.available && StoredCount(config, s.entries) as int == MAX_INT
    requires config.tripThreshold as int > MIN_INT
    ensures StoredCount(config, TripStep(config, s, true, now).entries) as int == MIN_INT
    ensures FilterStep(config, TripStep(config, s, true, now), later).passes
  {
  }
}

/**
 * A client of the breaker object: threshold 3, cooldown 60000 ms. Three
 * connection failures wrapped in a messaging exception trip it, the gate then
 * rejects, and 61000 ms after the last failure it lets one payload through and
 * leaves the counter at 0.
 */
module BreakerClient {
  import opened Wrappers
  import opened Classes
  import opened Throwables
  import opened ObjectStores
  import opened CircuitBreaker

  /** Throwable, Exception, IOException, ConnectException, and Mule's MessagingException. */
  function LoadedClasses(): ClassTable {
    [
      ClassDecl("java.lang.Throwable", None),
      ClassDecl("java.lang.Exception", Some(0)),
      ClassDecl("java.io.IOException", Some(1)),
      ClassDecl("java.net.ConnectException", Some(2)),
      ClassDecl("org.mule.api.MessagingException", Some(1))
    ]
  }

  /** A messaging exception whose cause is a connection failure. */
  function ConnectFailure(): Throwable {
    Throwable(4, Some(Throwable(3, None)))
  }

  /** A connection failure wrapped in a messaging exception counts as an `IOException`. */
  lemma ConnectFailureIsIOException()
    ensures WellFormed(LoadedClasses()) && Loaded(LoadedClasses(), ConnectFailure())
    ensures ExceptionMatches(LoadedClasses(), ConnectFailure(), "java.io.IOException") == Success(true)
  {
    var classes, failure := LoadedClasses(), ConnectFailure();
    assert ThrowableList(failure) == [failure, Throwable(3, None)];
    assert classes[4].name != "java.io.IOException" && classes[3].name != "java.io.IOException";
    assert ForName(classes, "java.io.IOException") == Some(2);
    assert RootCause(failure) == Some(Throwable(3, None));
    assert IsSubclassOf(classes, 3, 2);
  }

  method ThreeFailuresThenCooldown() {
    var classes := LoadedClasses();
    var event := ExceptionEvent("failed request", ConnectFailure());
    ConnectFailureIsIOException();

    var store := new ObjectStore(map[], true);
    var config := Config(3, 60000, "backend");
    var breaker := new Breaker(config, store);
    var t := breaker.Trip("java.io.IOException", event, classes, 1000);
    assert StoredCount(config, store.entries) == 1 && breaker.breakerTrippedOn.None?;
    t := breaker.Trip("java.io.IOException", event, classes, 2000);
    assert StoredCount(config, store.entries) == 2 && breaker.breakerTrippedOn.None?;
    t := breaker.Trip("java.io.IOException", event, classes, 3000);
    assert t == Success("failed request");
    assert StoredCount(config, store.entries) == 3 && breaker.breakerTrippedOn == Some(3000);

    var g := breaker.Filter("payload", 4000);
    assert g == Failure(CircuitOpen);
    g := breaker.Filter("payload", 64000);
    assert g == Success("payload");
    assert StoredCount(config, store.entries) == 0 && breaker.breakerTrippedOn.None?;
    g := breaker.Filter("payload", 64001);
    assert g == Success("payload");
  }
}
