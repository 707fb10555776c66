/**
 * Value types shared by the consolidated service and the transactions
 * service: optional values, results, exceptions, identifiers and time.
 */
module Common {

  /** A value that may be absent (a C# `null`). */
  datatype Option<+T> = None | Some(value: T)

  /** The outcome of an operation that may throw. */
  datatype Result<+T, +E> = Success(value: T) | Failure(error: E)

  /** The exception classes the modelled code throws or catches. */
  datatype ExceptionKind = InvalidOperation | Argument | Downstream

  /** A thrown exception: its class and its message. */
  datatype Exception = Exception(kind: ExceptionKind, message: string)

  /** A `Guid`; the value 0 stands for `Guid.Empty`. */
  type Guid = nat

  const EmptyGuid: Guid := 0

  /** A `DateTime`, as a count of 100-nanosecond ticks. */
  type DateTime = nat

  /** A `DateOnly`, as a day number. */
  type Date = int

  /** A `TimeSpan`, as a count of 100-nanosecond ticks. */
  type TimeSpan = int

  const TicksPerSecond: nat := 10_000_000
  const TicksPerDay: nat := 86_400 * TicksPerSecond

  /** `DateOnly.FromDateTime`: the day a timestamp falls on. */
  function DateOf(t: DateTime): (d: Date)
    ensures d * TicksPerDay <= t < (d + 1) * TicksPerDay
  {
    t / TicksPerDay
  }

  /**
   * The transaction type is a C# enum, so any `int` code can occur; every
   * code other than `Credit` is handled as a debit (the enum's `Debit` is 1).
   */
  type TransactionType = int

  const Credit: TransactionType := 0
}
