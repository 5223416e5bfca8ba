# Circuit breaker for Mule 3: a Dafny model

This project models the circuit-breaker module of the Mule 3 connector
`CircuitBreakerModule`. It has two processors:

- `filter` is the gate. It lets a message payload through while fewer matching
  failures than `tripThreshold` are recorded. Once the breaker has tripped and
  more than `tripResetTime` milliseconds have passed, it resets the breaker and lets the
  payload through. Otherwise it raises `CircuitOpenException`.
- `trip` is the recorder. It resolves a configured exception class name and
  looks at the root cause of the failed event. If the root cause is an instance
  of that class, it increments a failure counter. The counter is kept in Mule's
  persistent object store under the key `"<breakerName>.failureCount"`. When
  the count read back is at or above the threshold, `trip` stamps the trip time
  `breakerTrippedOn`.

Layout:

- `wrappers.dfy`: `Option` (a nullable reference) and `Result` (a return value or an exception).
- `java_int.dfy`: the counter is a Java `Integer`, so `Inc` is two's-complement `+ 1`.
- `classes.dfy`: the classes a class loader can resolve, `Class.forName`, and subclassing as `isAssignableFrom` decides it.
- `throwables.dfy`: exceptions with their `getCause()` chain, and the root cause at the end of it.
- `object_store.dfy`: Mule's `ObjectStore` as a shared object. `retrieve` and `remove` of an absent key fail. `store` of a present key fails. Every operation fails while the store is unreachable.
- `circuit_breaker.dfy`: the configuration, the counter key, the predicates and the classification. It also holds the gate and the recorder as functions on a `Snapshot` (the trip timestamp plus the store). The `Breaker` class runs them step by step on its field and the store. Each method is proved equal to its function.
- `breaker_properties.dfy`: properties over sequences of calls. It also holds a client method, `BreakerClient.ThreeFailuresThenCooldown`. The method drives one `Breaker` object through three matching failures, a rejected call, and recovery 61000 ms after the last failure.

The clock is passed in as `now` (milliseconds). The classes the caller's class
loader can resolve are passed to `Trip` as a class table. Superclasses come
before their subclasses in that table.

## Behaviour worth knowing

- Every matching failure at or above the threshold stamps `breakerTrippedOn`
  again (CircuitBreakerModule.java lines 137-139), not only the first one. So
  the cooldown runs from the last matching failure (`TripStep`,
  `RecordAllCounts`).
- Line 132 builds a debug message from `getException().getCause().getClass()`
  whatever the log level. So a failure without a cause raises
  `NullPointerException` before the class name is resolved (`Breaker.Trip`).
- A count at or above the threshold with no timestamp never recovers by time (lines
  100-110). The count lives in the persistent store and the timestamp in the
  breaker object, so a new breaker object over a store that kept an earlier
  run's count is in that state (`StuckOpenWithoutTimestamp`).

## Model

| member | source | states |
|---|---|---|
| `JavaInt.Inc` | circuitbreaker/src/main/java/com/mulesoft/mule/devkit/circuitbreaker/CircuitBreakerModule.java:206 | Java `int` `+ 1`: the result is `x + 1` reduced to the 32-bit two's-complement range, so it is `x + 1` below `MAX_INT` and wraps at it |
| `Classes.ForName` | circuitbreaker/src/main/java/com/mulesoft/mule/devkit/circuitbreaker/CircuitBreakerModule.java:157 | finds a class with the given name, and finds none exactly when no class in the table has that name (the `ClassNotFoundException` case) |
| `Classes.SubclassReflexive` | circuitbreaker/src/main/java/com/mulesoft/mule/devkit/circuitbreaker/CircuitBreakerModule.java:162 | every class is assignable to itself |
| `Classes.SubclassTransitive` | circuitbreaker/src/main/java/com/mulesoft/mule/devkit/circuitbreaker/CircuitBreakerModule.java:162 | a subclass of a subclass of C is a subclass of C |
| `Classes.IsSubclassOf` | circuitbreaker/src/main/java/com/mulesoft/mule/devkit/circuitbreaker/CircuitBreakerModule.java:162 | `isAssignableFrom` on the table: `sub` is `sup` or its parent is a subclass of `sup`; a class is never a subclass of a class that comes after it in the table |
| `Classes.SubclassAntisymmetric` | circuitbreaker/src/main/java/com/mulesoft/mule/devkit/circuitbreaker/CircuitBreakerModule.java:162 | two classes that are each other's subclass are the same class |
| `Classes.SubclassIffOnChain` | circuitbreaker/src/main/java/com/mulesoft/mule/devkit/circuitbreaker/CircuitBreakerModule.java:162 | `sub` is a subclass of `sup` if and only if `sup` is on the superclass chain of `sub` |
| `Throwables.ThrowableList` | circuitbreaker/src/main/java/com/mulesoft/mule/devkit/circuitbreaker/CircuitBreakerModule.java:159 | the exception followed by its causes through `getCause()`: it starts with the exception, each element's cause is the next, the last has no cause, and it has two or more elements exactly when the exception has a cause |
| `Throwables.RootCause` | circuitbreaker/src/main/java/com/mulesoft/mule/devkit/circuitbreaker/CircuitBreakerModule.java:159-160 | the root cause is the last exception of the cause chain and has no cause itself; there is none (null) exactly when the exception has no cause |
| `CircuitBreaker.FailureCountKey` | circuitbreaker/src/main/java/com/mulesoft/mule/devkit/circuitbreaker/CircuitBreakerModule.java:252-254 | the key is the breaker name followed by `.failureCount` |
| `CircuitBreaker.TooFewFailuresToTrip` | circuitbreaker/src/main/java/com/mulesoft/mule/devkit/circuitbreaker/CircuitBreakerModule.java:104-106 | the source's comparison `count < tripThreshold`, on the count read separately; `FilterStep`'s contract pins down its use |
| `CircuitBreaker.IsOpenButTimeoutExceeded` | circuitbreaker/src/main/java/com/mulesoft/mule/devkit/circuitbreaker/CircuitBreakerModule.java:108-110 | the source's test that a trip time is set and the timeout is exceeded; `FilterStep`'s contract pins down its use |
| `CircuitBreaker.TimeoutExceeded` | circuitbreaker/src/main/java/com/mulesoft/mule/devkit/circuitbreaker/CircuitBreakerModule.java:112-114 | the source's strict comparison `now - trippedOn > tripResetTime`; `FilterStep`'s contract pins down its use |
| `CircuitBreaker.IsTripThresholdReached` | circuitbreaker/src/main/java/com/mulesoft/mule/devkit/circuitbreaker/CircuitBreakerModule.java:146-149 | the source's comparison `count >= tripThreshold` on the count read back; `TripStep`'s contract pins down its use |
| `CircuitBreaker.FailureCountKeyInjective` | circuitbreaker/src/main/java/com/mulesoft/mule/devkit/circuitbreaker/CircuitBreakerModule.java:252-254 | two breaker names that give the same counter key are the same name |
| `CircuitBreaker.ExceptionMatches` | circuitbreaker/src/main/java/com/mulesoft/mule/devkit/circuitbreaker/CircuitBreakerModule.java:155-167 | an unresolvable name raises `IllegalArgumentException`; a resolvable name with no root cause is a null dereference; otherwise the failure matches exactly when some class on the root cause's superclass chain has the configured name |
| `CircuitBreaker.AfterIncrement` | circuitbreaker/src/main/java/com/mulesoft/mule/devkit/circuitbreaker/CircuitBreakerModule.java:196-212 | on a reachable store the counter key is present and `Inc` of the count before, so one higher below `MAX_INT` and wrapped at it (an absent key counts as 0); no other key, the store's reachability or the timestamp changes; an unreachable store leaves everything as it was |
| `CircuitBreaker.AfterReset` | circuitbreaker/src/main/java/com/mulesoft/mule/devkit/circuitbreaker/CircuitBreakerModule.java:217-231 | on a reachable store the counter key is present with value 0 and nothing else changes; an unreachable store leaves everything as it was |
| `CircuitBreaker.FilterStep` | circuitbreaker/src/main/java/com/mulesoft/mule/devkit/circuitbreaker/CircuitBreakerModule.java:88-114 | the payload passes if and only if the count read is below the threshold or the breaker tripped strictly more than `tripResetTime` ago; below the threshold nothing changes; a reset clears the timestamp and leaves the key at 0 with all other keys unchanged; a rejection changes nothing |
| `CircuitBreaker.TripStep` | circuitbreaker/src/main/java/com/mulesoft/mule/devkit/circuitbreaker/CircuitBreakerModule.java:134-149 | a non-matching failure changes nothing; a matching one sets the counter to `Inc` of its old value, so exactly one higher without overflow, and touches no other key; the timestamp becomes `now` when the count read back reaches the threshold and otherwise keeps its value |
| `CircuitBreaker.Breaker.constructor` | circuitbreaker/src/main/java/com/mulesoft/mule/devkit/circuitbreaker/CircuitBreakerModule.java:35-46 | a new breaker has its configuration and store and has not tripped |
| `CircuitBreaker.Breaker.GetFailureCount` | circuitbreaker/src/main/java/com/mulesoft/mule/devkit/circuitbreaker/CircuitBreakerModule.java:173-190 | read-only; returns the stored count, 0 for an absent key, and 0 when the store cannot be read |
| `CircuitBreaker.Breaker.IncrementFailureCount` | circuitbreaker/src/main/java/com/mulesoft/mule/devkit/circuitbreaker/CircuitBreakerModule.java:196-212 | the contains/retrieve/remove/store sequence against the store's contract has the effect `AfterIncrement` states |
| `CircuitBreaker.Breaker.ResetFailureCount` | circuitbreaker/src/main/java/com/mulesoft/mule/devkit/circuitbreaker/CircuitBreakerModule.java:217-231 | the contains/remove/store sequence has the effect `AfterReset` states |
| `CircuitBreaker.Breaker.Filter` | circuitbreaker/src/main/java/com/mulesoft/mule/devkit/circuitbreaker/CircuitBreakerModule.java:85-114 | returns the payload unchanged or raises `CircuitOpen` as `FilterStep` decides, and leaves the breaker and store in `FilterStep`'s state |
| `CircuitBreaker.Breaker.Trip` | circuitbreaker/src/main/java/com/mulesoft/mule/devkit/circuitbreaker/CircuitBreakerModule.java:128-144 | no cause: `NullPointerException`; unresolvable class name: `IllegalArgumentException`; both change nothing; otherwise returns the event's message as received and leaves `TripStep`'s state |
| `BreakerProperties.RecordAllCounts` | circuitbreaker/src/main/java/com/mulesoft/mule/devkit/circuitbreaker/CircuitBreakerModule.java:134-149 | a sequence of failures raises the counter by exactly the number that matched and changes no other key; the timestamp is that of the last matching failure if the final count reaches the threshold, and unchanged otherwise |
| `BreakerProperties.BelowThresholdAlwaysPasses` | circuitbreaker/src/main/java/com/mulesoft/mule/devkit/circuitbreaker/CircuitBreakerModule.java:88-91 | after fewer matching failures than the threshold, the gate passes at any time and changes nothing |
| `BreakerProperties.OpensAtThreshold` | circuitbreaker/src/main/java/com/mulesoft/mule/devkit/circuitbreaker/CircuitBreakerModule.java:93-113 | once the threshold is reached, the gate rejects and changes nothing until strictly more than `tripResetTime` has passed since the last matching failure |
| `BreakerProperties.RecoversAfterCooldown` | circuitbreaker/src/main/java/com/mulesoft/mule/devkit/circuitbreaker/CircuitBreakerModule.java:93-98 | after the cooldown the gate passes, clears the timestamp and resets the counter to 0, at any threshold; with a positive threshold the next call passes too |
| `BreakerProperties.StuckOpenWithoutTimestamp` | circuitbreaker/src/main/java/com/mulesoft/mule/devkit/circuitbreaker/CircuitBreakerModule.java:100-110 | with the count read at or above the threshold and no timestamp, every gate call at any time is rejected |
| `BreakerProperties.RunKeepsConsistent` | circuitbreaker/src/main/java/com/mulesoft/mule/devkit/circuitbreaker/CircuitBreakerModule.java:88-149 | any sequence of whole gate and recorder calls keeps the stored count non-negative and keeps a timestamp only while the count is at or above the threshold, as long as the counter cannot overflow; no other store key changes |
| `BreakerProperties.OtherBreakersUntouched` | circuitbreaker/src/main/java/com/mulesoft/mule/devkit/circuitbreaker/CircuitBreakerModule.java:252-254 | a breaker's gate and recorder never change the counter of a differently named breaker sharing the store |
| `BreakerProperties.CounterWrapsAtMaxInt` | circuitbreaker/src/main/java/com/mulesoft/mule/devkit/circuitbreaker/CircuitBreakerModule.java:201-206 | a matching failure at count `MAX_INT` wraps the counter to `MIN_INT`, after which the gate lets traffic through |
| `BreakerClient.ConnectFailureIsIOException` | circuitbreaker/src/main/java/com/mulesoft/mule/devkit/circuitbreaker/CircuitBreakerModule.java:155-167 | a messaging exception whose root cause is a `ConnectException` matches the configured `java.io.IOException`, a superclass of the root cause's class |

## Left out

- Locking: the semaphore around each store access (`objectStoreMutex`, `acquireObjectStoreMutex`, `releaseObjectStore`) exists for concurrency. Each counter helper is one sequential, atomic method. The interrupted-acquire path is not modelled. Interleavings are not modelled either. Callers of one module instance share its semaphore (line 40), but it guards each counter helper on its own, not a whole `filter` or `trip` call. The count is read (lines 105 and 147) and written (lines 96 and 136) in separate steps, and `breakerTrippedOn` (lines 95 and 139) is not guarded at all. So a `trip` that runs between lines 95 and 96 of a `filter` leaves a timestamp with a count of 0 and loses its failure. Two module instances with the same breaker name have separate semaphores but share the store key. Every property over runs (`Run`, `RunKeepsConsistent`) treats each gate or recorder call as one atomic step.
- Mule glue: annotations, the `MuleContext` and `ObjectStoreManager` accessors, and unwrapping of `MuleEvent`, `MuleMessage` and `ExceptionPayload`. The payload and message are opaque type parameters. An event without an exception payload (a null payload) is not modelled.
- Reflection and library code: `Class.forName`, `isAssignableFrom` and `getRootCause` are replaced by a class table and functions over it. Interfaces are not modelled; classes have single inheritance.
- Clock: `System.currentTimeMillis()` and `new Date()` are the parameter `now`. Times and `tripResetTime` are unbounded integers. Java's 64-bit `long` subtraction would only overflow for times far outside the epoch range.
- Cause chain: only `Throwable.getCause()` links are followed. Commons Lang's `getRootCause` also follows other accessors (`getNextException` of an `SQLException`, `getTargetException` of an `InvocationTargetException`, and similar); those links are not modelled. Neither is a cyclic cause chain (`a.initCause(b); b.initCause(a)`), where Commons Lang stops at the loop: a `Throwable` value's causes always end.
- Class loaders: class names are unique in the table, as one class loader sees them. Same-named classes from different loaders are not modelled.
- Logging: every debug and error message. The one exception is the null dereference that building the message at line 132 can cause.
- Store faults: the store is either reachable for a whole call or not at all. A fault between two operations of one helper is not modelled, for example after `remove` and before `store`.
- Configuration: both `CircuitBreakerConfig` classes are folded into the `Config` datatype, which uses no defaults. A null breaker name, which Java formats as `"null"`, is not modelled.
- Demo application: `ConnectionComponent` and `ConnectionNotAvailbleException` are not part of this model.
