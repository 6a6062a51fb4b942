/**
 The single record the counter application tracks, the two operations a user
 can ask for, and the outcome of a call to the remote counter service.
 */
module Counters {

  /** A nullable value (`T | null` in the client). */
  datatype Option<+T> = None | Some(value: T)

  /** A wall-clock instant. The client stamps records with `new Date()`; here
      the instant is supplied by the caller and never inspected. */
  type Timestamp = int

  /** The counter record `{id, value, updated_at}` served by the backend. */
  datatype Counter = Counter(id: int, value: int, updatedAt: Timestamp)

  /** The argument of `handleOperation`: `'increment' | 'decrement'`. */
  datatype Operation = Increment | Decrement

  /** What a remote call (`getCounter.query()` or `updateCounter.mutate(..)`)
      did: resolved with a counter, or threw. Every kind of failure is one. */
  datatype Reply = Ok(counter: Counter) | Fail

  /** The id the client gives every counter it makes up itself. */
  const StubId: int := 1

  /** The synthetic counter used when the backend cannot be reached: value
      0, stamped `now`, and carrying the same id as every counter the client
      later computes from it on its own. */
  function StubCounter(now: Timestamp): (c: Counter)
    ensures c.value == 0 && c.updatedAt == now
    ensures forall op: Operation, t: Timestamp :: LocalStep(c, op, t).id == c.id
  {
    Counter(StubId, 0, now)
  }

  /** The change an operation makes to the value. */
  function Shift(op: Operation): int
  {
    match op
    case Increment => 1
    case Decrement => -1
  }

  /** The counter the client computes on its own, without the backend:
      one more or one less than the value held, with no bounds. */
  function LocalStep(c: Counter, op: Operation, now: Timestamp): (r: Counter)
    ensures r.id == StubId && r.updatedAt == now
    ensures op == Increment ==> r.value == c.value + 1
    ensures op == Decrement ==> r.value == c.value - 1
  {
    var newValue := if op == Increment then c.value + 1 else c.value - 1;
    Counter(StubId, newValue, now)
  }

  /** Local steps are not clamped: an increment followed by a decrement (or the
      other way round) gives back the value held, whatever it was. */
  lemma LocalStepsCancel(c: Counter, op: Operation, t1: Timestamp, t2: Timestamp)
    ensures var back := if op == Increment then Decrement else Increment;
            LocalStep(LocalStep(c, op, t1), back, t2) == Counter(StubId, c.value, t2)
  {
  }
}
