/**
 * The circuit breaker: a gate (`Filter`) that lets a payload through, resets
 * the breaker after its cooldown or raises `CircuitOpenException`, and a
 * recorder (`Trip`) that counts the failures whose root cause is of a
 * configured exception class. The failure count lives in a shared persistent
 * store under the key `"<breakerName>.failureCount"`; the moment the breaker
 * tripped lives in the breaker object itself.
 *
 * The decisions are first given as functions on a `Snapshot` of everything
 * they depend on; the `Breaker` class then performs them step by step on its
 * field and on the store, and each of its methods is proved to agree with the
 * function for it.
 */
module CircuitBreaker {
  import opened Wrappers
  import opened JavaInt
  import opened Classes
  import opened Throwables
  import opened ObjectStores

  /** The breaker's settings: failures needed to trip, cooldown in milliseconds, and its name. */
  datatype Config = Config(tripThreshold: int32, tripResetTime: int, breakerName: string)

  /** Raised by `Filter` while the circuit is open. */
  datatype GateError = CircuitOpen

  /**
   * Raised by `Trip`: a `NullPointerException` when the failure has no cause,
   * or an `IllegalArgumentException` when the class loader cannot find the
   * configured class name.
   */
  datatype TripError = NullPointer | IllegalArgument(className: string)

  /** The failure handed to `Trip`: the message to pass on and the exception it carries. */
  datatype ExceptionEvent<M> = ExceptionEvent(message: M, exception: Throwable)

  /** The store key under which a breaker keeps its failure count. */
  function FailureCountKey(breakerName: string): (key: string)
    ensures |key| == |breakerName| + |".failureCount"|
    ensures key[..|breakerName|] == breakerName && key[|breakerName|..] == ".failureCount"
  {
    breakerName + ".failureCount"
  }

  /** Breakers with different names count their failures under different keys. */
  lemma FailureCountKeyInjective(a: string, b: string)
    requires FailureCountKey(a) == FailureCountKey(b)
    ensures a == b
  {
    assert |a| == |b|;
    assert a == FailureCountKey(a)[..|a|];
    assert b == FailureCountKey(b)[..|b|];
  }

  // ---------------------------------------------------------------------
  // Predicates on the count, the timestamp and the clock
  // ---------------------------------------------------------------------

  predicate TooFewFailuresToTrip(config: Config, failureCount: int32) {
    failureCount < config.tripThreshold
  }

  predicate TimeoutExceeded(config: Config, trippedOn: int, now: int) {
    now - trippedOn > config.tripResetTime
  }

  predicate IsOpenButTimeoutExceeded(config: Config, trippedOn: Option<int>, now: int) {
    trippedOn.Some? && TimeoutExceeded(config, trippedOn.value, now)
  }

  predicate IsTripThresholdReached(config: Config, failureCount: int32) {
    failureCount >= config.tripThreshold
  }

  // ---------------------------------------------------------------------
  // Exception classification
  // ---------------------------------------------------------------------

  /** Some class on the superclass chain of `c` has the given name. */
  predicate NamedOnChain(classes: ClassTable, c: ClassRef, name: string)
    requires WellFormed(classes) && c < |classes|
  {
    exists k :: 0 <= k < |Superclasses(classes, c)| && classes[Superclasses(classes, c)[k]].name == name
  }

  /**
   * Whether the root cause of `exception` is an instance of the class named
   * `tripOnException`. The name is resolved first; a name the class loader
   * cannot find is an `IllegalArgumentException`, and an exception without a cause has
   * no root cause, which Java dereferences as null.
   */
  function ExceptionMatches(classes: ClassTable, exception: Throwable, tripOnException: string): (r: Result<bool, TripError>)
    requires WellFormed(classes) && Loaded(classes, exception)
    ensures ForName(classes, tripOnException).None? ==> r == Failure(IllegalArgument(tripOnException))
    ensures ForName(classes, tripOnException).Some? && exception.cause.None? ==> r == Failure(NullPointer)
    ensures ForName(classes, tripOnException).Some? && exception.cause.Some? ==>
      r.Success? && (r.value <==> NamedOnChain(classes, RootCause(exception).value.cls, tripOnException))
  {
    match ForName(classes, tripOnException)
    case None => Failure(IllegalArgument(tripOnException))
    case Some(tripOn) =>
      match RootCause(exception)
      case None => Failure(NullPointer)
      case Some(root) =>
        assert root.cls < |classes|;
        MatchIffNamedOnChain(classes, root.cls, tripOn);
        Success(IsSubclassOf(classes, root.cls, tripOn))
  }

  lemma MatchIffNamedOnChain(classes: ClassTable, c: ClassRef, tripOn: ClassRef)
    requires WellFormed(classes) && c < |classes| && tripOn < |classes|
    ensures IsSubclassOf(classes, c, tripOn) <==> NamedOnChain(classes, c, classes[tripOn].name)
  {
    var chain := Superclasses(classes, c);
    SubclassIffOnChain(classes, c, tripOn);
    if NamedOnChain(classes, c, classes[tripOn].name) {
      var k :| 0 <= k < |chain| && classes[chain[k]].name == classes[tripOn].name;
      assert chain[k] == tripOn;
    }
  }

  // ---------------------------------------------------------------------
  // The breaker's behaviour as functions of a snapshot
  // ---------------------------------------------------------------------

  /** The breaker's timestamp together with the store's entries and reachability. */
  datatype Snapshot = Snapshot(trippedOn: Option<int>, entries: map<string, int32>, available: bool)

  /** The count kept under the breaker's key; an absent key counts as 0. */
  function StoredCount(config: Config, entries: map<string, int32>): int32 {
    var key := FailureCountKey(config.breakerName);
    if key in entries then entries[key] else 0
  }

  /** What reading the failure count yields: the stored count, or 0 when the store cannot be read. */
  function ReadCount(config: Config, s: Snapshot): int32 {
    if s.available then StoredCount(config, s.entries) else 0
  }

  /** The snapshot after the breaker's counter was incremented (Java `int` addition). */
  function AfterIncrement(config: Config, s: Snapshot): (r: Snapshot)
    ensures r.trippedOn == s.trippedOn && r.available == s.available
    ensures r.entries - {FailureCountKey(config.breakerName)} == s.entries - {FailureCountKey(config.breakerName)}
    ensures s.available ==> FailureCountKey(config.breakerName) in r.entries
    ensures s.available ==> StoredCount(config, r.entries) == Inc(StoredCount(config, s.entries))
    ensures s.available && StoredCount(config, s.entries) as int < MAX_INT ==>
      StoredCount(config, r.entries) as int == StoredCount(config, s.entries) as int + 1
    ensures !s.available ==> r == s
  {
    if s.available then
      s.(entries := s.entries[FailureCountKey(config.breakerName) := Inc(StoredCount(config, s.entries))])
    else s
  }

  /** The snapshot after the breaker's counter was reset to 0. */
  function AfterReset(config: Config, s: Snapshot): (r: Snapshot)
    ensures r.trippedOn == s.trippedOn && r.available == s.available
    ensures r.entries - {FailureCountKey(config.breakerName)} == s.entries - {FailureCountKey(config.breakerName)}
    ensures s.available ==> FailureCountKey(config.breakerName) in r.entries && StoredCount(config, r.entries) == 0
    ensures !s.available ==> r == s
  {
    if s.available then s.(entries := s.entries[FailureCountKey(config.breakerName) := 0]) else s
  }

  /** The gate's verdict and the snapshot it leaves behind. */
  datatype GateDecision = GateDecision(passes: bool, next: Snapshot)

  /**
   * The gate: closed while fewer failures than the threshold are recorded;
   * otherwise open, unless the breaker tripped more than `tripResetTime`
   * milliseconds ago, in which case it forgets the trip, resets the counter
   * and lets this payload through.
   */
  function FilterStep(config: Config, s: Snapshot, now: int): (d: GateDecision)
    ensures d.passes <==>
      ReadCount(config, s) < config.tripThreshold
      || (s.trippedOn.Some? && now - s.trippedOn.value > config.tripResetTime)
    ensures ReadCount(config, s) < config.tripThreshold ==> d.next == s
    ensures ReadCount(config, s) >= config.tripThreshold && d.passes ==>
      && d.next.trippedOn.None?
      && d.next.available == s.available
      && d.next.entries - {FailureCountKey(config.breakerName)} == s.entries - {FailureCountKey(config.breakerName)}
      && (s.available ==> FailureCountKey(config.breakerName) in d.next.entries && StoredCount(config, d.next.entries) == 0)
      && (!s.available ==> d.next.entries == s.entries)
    ensures !d.passes ==> d.next == s
  {
    if TooFewFailuresToTrip(config, ReadCount(config, s)) then
      GateDecision(true, s)
    else if IsOpenButTimeoutExceeded(config, s.trippedOn, now) then
      GateDecision(true, AfterReset(config, s.(trippedOn := None)))
    else
      GateDecision(false, s)
  }

  /**
   * The recorder once the failure is classified: a non-matching failure
   * changes nothing; a matching one increments the counter and, when the
   * count read back reaches the threshold, stamps the trip time.
   */
  function TripStep(config: Config, s: Snapshot, matched: bool, now: int): (r: Snapshot)
    ensures !matched ==> r == s
    ensures r.available == s.available
    ensures r.entries - {FailureCountKey(config.breakerName)} == s.entries - {FailureCountKey(config.breakerName)}
    ensures matched && s.available ==> StoredCount(config, r.entries) == Inc(StoredCount(config, s.entries))
    ensures matched && s.available && StoredCount(config, s.entries) as int < MAX_INT ==>
      StoredCount(config, r.entries) as int == StoredCount(config, s.entries) as int + 1
    ensures matched && !s.available ==> r.entries == s.entries
    ensures matched && ReadCount(config, r) >= config.tripThreshold ==> r.trippedOn == Some(now)
    ensures matched && ReadCount(config, r) < config.tripThreshold ==> r.trippedOn == s.trippedOn
  {
    if !matched then s
    else
      var counted := AfterIncrement(config, s);
      if IsTripThresholdReached(config, ReadCount(config, counted)) then counted.(trippedOn := Some(now))
      else counted
  }

  // ---------------------------------------------------------------------
  // The breaker object
  // ---------------------------------------------------------------------

  class Breaker {
    const config: Config
    /** The shared persistent store; other breakers may hold the same one. */
    const store: ObjectStore
    /** When the breaker last tripped, in milliseconds; None while it has not tripped. */
    var breakerTrippedOn: Option<int>

    constructor (config: Config, store: ObjectStore)
      ensures this.config == config && this.store == store && breakerTrippedOn.None?
    {
      this.config := config;
      this.store := store;
      breakerTrippedOn := None;
    }

    function State(): Snapshot
      reads this, store
    {
      Snapshot(breakerTrippedOn, store.entries, store.available)
    }

    /** Reads the failure count; an absent key or a failing store reads as 0. */
    method GetFailureCount() returns (failureCount: int32)
      ensures failureCount == ReadCount(config, State())
      ensures store.available ==> failureCount == StoredCount(config, store.entries)
      ensures !store.available ==> failureCount == 0
    {
      var key := FailureCountKey(config.breakerName);
      failureCount := 0;
      var present := store.Contains(key);
      if present.Success? && present.value {
        var retrieved := store.Retrieve(key);
        if retrieved.Success? {
          failureCount := retrieved.value;
        }
      }
    }

    /** Adds one to the failure count; a failing store leaves everything as it was. */
    method IncrementFailureCount()
      modifies store
      ensures State() == AfterIncrement(config, old(State()))
    {
      var key := FailureCountKey(config.breakerName);
      var failureCount: int32 := 0;
      var present := store.Contains(key);
      if present.Failure? {
        return;
      }
      if present.value {
        var retrieved := store.Retrieve(key);
        if retrieved.Failure? {
          return;
        }
        failureCount := retrieved.value;
        var removed := store.Remove(key);
        if removed.Failure? {
          return;
        }
      }
      var stored := store.Store(key, Inc(failureCount));
    }

    /** Sets the failure count to 0; a failing store leaves everything as it was. */
    method ResetFailureCount()
      modifies store
      ensures State() == AfterReset(config, old(State()))
    {
      var key := FailureCountKey(config.breakerName);
      var present := store.Contains(key);
      if present.Failure? {
        return;
      }
      if present.value {
        var removed := store.Remove(key);
        if removed.Failure? {
          return;
        }
      }
      var stored := store.Store(key, 0);
    }

    /** The gate: returns the payload or raises `CircuitOpen`. */
    method Filter<P>(payload: P, now: int) returns (r: Result<P, GateError>)
      modifies this, store
      ensures r == if FilterStep(config, old(State()), now).passes then Success(payload) else Failure(CircuitOpen)
      ensures State() == FilterStep(config, old(State()), now).next
    {
      var failureCount := GetFailureCount();
      if TooFewFailuresToTrip(config, failureCount) {
        return Success(payload);
      }
      if IsOpenButTimeoutExceeded(config, breakerTrippedOn, now) {
        breakerTrippedOn := None;
        ResetFailureCount();
        return Success(payload);
      }
      r := Failure(CircuitOpen);
    }

    /**
     * The recorder: classifies the failure against the class named
     * `tripOnException` and counts it when it matches. Returns the event's
     * message unchanged.
     */
    method Trip<M>(tripOnException: string, event: ExceptionEvent<M>, classes: ClassTable, now: int)
      returns (r: Result<M, TripError>)
      requires WellFormed(classes) && Loaded(classes, event.exception)
      modifies this, store
      ensures event.exception.cause.None? ==> r == Failure(NullPointer)
      ensures event.exception.cause.Some? ==>
        match ExceptionMatches(classes, event.exception, tripOnException)
        case Failure(e) => r == Failure(e)
        case Success(matched) => r == Success(event.message) && State() == TripStep(config, old(State()), matched, now)
      ensures r.Failure? ==> State() == old(State())
    {
      // The exception's direct cause is dereferenced before anything else.
      if event.exception.cause.None? {
        return Failure(NullPointer);
      }
      var matches := ExceptionMatches(classes, event.exception, tripOnException);
      if matches.Failure? {
        return Failure(matches.error);
      }
      if matches.value {
        IncrementFailureCount();
        var failureCount := GetFailureCount();
        if IsTripThresholdReached(config, failureCount) {
          breakerTrippedOn := Some(now);
        }
      }
      r := Success(event.message);
    }
  }
}
