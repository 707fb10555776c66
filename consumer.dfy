/**
 * `SqsMessageConsumer`: the background loop of the consolidated service. It
 * polls the queue, and hands each received message, through the circuit
 * breaker, to `ProcessMessageAsync`, which folds a `TransactionCreatedEvent`
 * into the daily balances and deletes the message from the queue.
 *
 * The queue client is replaced by its observable effects: what each poll
 * returns is an input (`Poll`), and each delete that succeeds is recorded in
 * `deleted`, the receipt handles removed from the queue in order. Everything
 * the environment decides about one delivery (the time, the id a new balance
 * would get, whether the use case or the delete throws) travels with the
 * message in a `Delivery`.
 */
module Consumer {
  import opened Common
  import opened Resilience
  import opened Balances
  import opened Repositories
  import opened ProcessTransactionEvent

  /** The `EventType` attribute value the consumer acts on. */
  const EventTypeTag := "TransactionCreatedEvent"

  /** The breaker the consumer builds: five failures open it for thirty seconds. */
  const FailureThreshold := 5
  const DurationOfBreak: TimeSpan := 30 * TicksPerSecond

  /** `TransactionCreatedEventDto`: the message body's fields. */
  datatype EventDto = EventDto(
    transactionId: Guid,
    merchantId: Guid,
    kind: int,
    amount: real,
    transactionDate: DateTime,
    occurredAt: DateTime)

  /** What deserializing a body gives: an exception, `null`, or an event. */
  datatype Decoded = Malformed | NullEvent | Decoded(event: EventDto)

  /** A received message: its ids, its `EventType` attribute if any, and its decoded body. */
  datatype Message = Message(messageId: string, receiptHandle: string, eventType: Option<string>, body: Decoded)

  /** One message as delivered, with what the environment does while it is handled. */
  datatype Delivery = Delivery(message: Message, now: DateTime, newId: Guid, useCaseFails: bool, deleteFails: bool)

  /** One iteration of the poll loop: the receive call throws, or returns a batch. */
  datatype Poll = ReceiveFailed | Received(batch: seq<Delivery>)

  /** The effect of `ProcessMessageAsync` on the balances, and whether the message was deleted. */
  datatype Handled = Handled(rows: map<Key, BalanceView>, deleted: bool)

  /** The consumer's observable state, as a value. */
  datatype ConsumerState = ConsumerState(breaker: BreakerState, rows: map<Key, BalanceView>, deleted: seq<string>, delays: nat)

  /** The message is tagged as a transaction event and its body decodes to one. */
  predicate IsEvent(m: Message) {
    m.eventType == Some(EventTypeTag) && m.body.Decoded?
  }

  /** The use case runs to completion on this delivery. */
  predicate Applies(d: Delivery) {
    IsEvent(d.message) && !d.useCaseFails
  }

  /** The arguments the use case receives: the decoded fields unchanged, the type code cast without a range check. */
  function InvocationOf(d: Delivery): (inv: Invocation)
    requires IsEvent(d.message)
    ensures var e := d.message.body.event;
      && inv.merchantId == e.merchantId && inv.kind == e.kind && inv.amount == e.amount
      && inv.transactionDate == e.transactionDate
  {
    var e := d.message.body.event;
    Invocation(e.merchantId, e.kind, e.amount, e.transactionDate, d.newId, d.now)
  }

  /**
   * The specification of `ProcessMessageAsync`. Every exception inside it is
   * caught, so a failure anywhere only stops the remaining steps; a use case
   * that throws is taken to leave the balances as they were.
   */
  function Handle(rows: map<Key, BalanceView>, d: Delivery): (h: Handled)
    ensures h.deleted <==> Applies(d) && !d.deleteFails
    ensures !Applies(d) ==> h.rows == rows
  {
    if Applies(d) then Handled(Processed(rows, InvocationOf(d)), !d.deleteFails)
    else Handled(rows, false)
  }

  /** One message of a batch: through the breaker, then handled if the breaker let it through. */
  function Delivered(s: ConsumerState, d: Delivery): ConsumerState {
    var x := Step(s.breaker, FailureThreshold, DurationOfBreak, d.now, ReturningTrue(Completed(())));
    if !x.invoked then s.(breaker := x.next)
    else
      var h := Handle(s.rows, d);
      ConsumerState(x.next, h.rows, s.deleted + (if h.deleted then [d.message.receiptHandle] else []), s.delays)
  }

  /** A batch, handled one message at a time in the order received. */
  function Batch(s: ConsumerState, ds: seq<Delivery>): ConsumerState {
    if ds == [] then s else Delivered(Batch(s, ds[..|ds| - 1]), ds[|ds| - 1])
  }

  /** One iteration of the poll loop: a failed receive is followed by a pause, a batch is handled. */
  function Polled(s: ConsumerState, p: Poll): ConsumerState {
    match p
    case ReceiveFailed => s.(delays := s.delays + 1)
    case Received(ds) => Batch(s, ds)
  }

  /** The poll loop until cancellation, which is observed only between polls. */
  function RunAll(s: ConsumerState, polls: seq<Poll>): ConsumerState {
    if polls == [] then s else Polled(RunAll(s, polls[..|polls| - 1]), polls[|polls| - 1])
  }

  /** The use-case runs of a batch, in order. */
  function Invocations(ds: seq<Delivery>): seq<Invocation> {
    if ds == [] then []
    else
      var d := ds[|ds| - 1];
      Invocations(ds[..|ds| - 1]) + (if Applies(d) then [InvocationOf(d)] else [])
  }

  /** The receipt handles a batch deletes, in order. */
  function DeletedHandles(ds: seq<Delivery>): seq<string> {
    if ds == [] then []
    else
      var d := ds[|ds| - 1];
      DeletedHandles(ds[..|ds| - 1]) + (if Applies(d) && !d.deleteFails then [d.message.receiptHandle] else [])
  }

  /** The use-case runs of a sequence of polls, in order. */
  function RunInvocations(polls: seq<Poll>): seq<Invocation> {
    if polls == [] then []
    else
      var p := polls[|polls| - 1];
      RunInvocations(polls[..|polls| - 1]) + (if p.Received? then Invocations(p.batch) else [])
  }

  /** The receipt handles a sequence of polls deletes, in order. */
  function RunDeletedHandles(polls: seq<Poll>): seq<string> {
    if polls == [] then []
    else
      var p := polls[|polls| - 1];
      RunDeletedHandles(polls[..|polls| - 1]) + (if p.Received? then DeletedHandles(p.batch) else [])
  }

  /** The number of failed receives among the polls. */
  function ReceiveFailures(polls: seq<Poll>): nat {
    if polls == [] then 0
    else ReceiveFailures(polls[..|polls| - 1]) + (if polls[|polls| - 1].ReceiveFailed? then 1 else 0)
  }

  /**
   * The work the consumer hands to the breaker never throws, so the only
   * exception the breaker can raise at this call site is the open-circuit
   * one, which the per-message catch filter handles. A call that runs the
   * work closes the breaker and clears its count, one that does not leaves
   * it as it was, and a freshly built breaker runs the work and stays fresh.
   */
  lemma BreakerSeesNoFailure(s: BreakerState, now: DateTime)
    requires Inv(s, FailureThreshold)
    ensures var x := Step(s, FailureThreshold, DurationOfBreak, now, ReturningTrue(Completed(())));
      && (x.result.Failure? ==> x.result.error == CircuitOpenError && !x.invoked)
      && (x.invoked ==> x.next.state == Closed && x.next.failureCount == 0)
      && (!x.invoked ==> x.next == s)
      && (s == Initial ==> x.invoked && x.next == Initial)
  {
  }

  /**
   * From a freshly built breaker, a batch runs the use case on exactly the
   * messages that are tagged, decode and do not fail, in receipt order, and
   * deletes exactly those whose delete also succeeds; the breaker never moves.
   */
  lemma {:induction false} BatchFromInitial(s: ConsumerState, ds: seq<Delivery>)
    requires s.breaker == Initial
    ensures Batch(s, ds) == ConsumerState(Initial, ProcessedAll(s.rows, Invocations(ds)), s.deleted + DeletedHandles(ds), s.delays)
  {
    if ds != [] {
      var init, d := ds[..|ds| - 1], ds[|ds| - 1];
      BatchFromInitial(s, init);
      var invs := Invocations(init);
      if Applies(d) {
        assert (invs + [InvocationOf(d)])[..|invs|] == invs;
      } else {
        assert invs + [] == invs;
      }
    }
  }

  /**
   * The whole loop from a freshly built breaker: the balances are the fold of
   * every successful use-case run over all polls, the deletes are those of
   * every batch in order, one pause follows each failed receive, and the
   * breaker is still closed with no failures — it never opens from this call site.
   */
  lemma {:induction false} RunFromInitial(s: ConsumerState, polls: seq<Poll>)
    requires s.breaker == Initial
    ensures RunAll(s, polls) == ConsumerState(
      Initial,
      ProcessedAll(s.rows, RunInvocations(polls)),
      s.deleted + RunDeletedHandles(polls),
      s.delays + ReceiveFailures(polls))
  {
    if polls != [] {
      RunFromInitial(s, polls[..|polls| - 1]);
      if polls[|polls| - 1].ReceiveFailed? {
        FailedReceiveStep(s, polls);
      } else {
        ReceivedStep(s, polls);
      }
    }
  }

  /** The step of `RunFromInitial` for a failed receive: only the pause count moves. */
  lemma FailedReceiveStep(s: ConsumerState, polls: seq<Poll>)
    requires polls != [] && polls[|polls| - 1].ReceiveFailed?
    requires var init := polls[..|polls| - 1];
      RunAll(s, init) == ConsumerState(Initial, ProcessedAll(s.rows, RunInvocations(init)),
                                       s.deleted + RunDeletedHandles(init), s.delays + ReceiveFailures(init))
    ensures RunAll(s, polls) == ConsumerState(Initial, ProcessedAll(s.rows, RunInvocations(polls)),
                                              s.deleted + RunDeletedHandles(polls), s.delays + ReceiveFailures(polls))
  {
    var init := polls[..|polls| - 1];
    assert RunInvocations(polls) == RunInvocations(init) + [] == RunInvocations(init);
    assert RunDeletedHandles(polls) == RunDeletedHandles(init) + [] == RunDeletedHandles(init);
  }

  /** The step of `RunFromInitial` for a received batch: its runs and deletes are appended. */
  lemma ReceivedStep(s: ConsumerState, polls: seq<Poll>)
    requires polls != [] && polls[|polls| - 1].Received?
    requires var init := polls[..|polls| - 1];
      RunAll(s, init) == ConsumerState(Initial, ProcessedAll(s.rows, RunInvocations(init)),
                                       s.deleted + RunDeletedHandles(init), s.delays + ReceiveFailures(init))
    ensures RunAll(s, polls) == ConsumerState(Initial, ProcessedAll(s.rows, RunInvocations(polls)),
                                              s.deleted + RunDeletedHandles(polls), s.delays + ReceiveFailures(polls))
  {
    var init, ds := polls[..|polls| - 1], polls[|polls| - 1].batch;
    var mid := RunAll(s, init);
    assert RunAll(s, polls) == Batch(mid, ds);
    BatchFromInitial(mid, ds);
    assert RunInvocations(polls) == RunInvocations(init) + Invocations(ds);
    assert RunDeletedHandles(polls) == RunDeletedHandles(init) + DeletedHandles(ds);
    ProcessedAllAppend(s.rows, RunInvocations(init), Invocations(ds));
    assert s.deleted + RunDeletedHandles(polls) == s.deleted + RunDeletedHandles(init) + DeletedHandles(ds);
  }

  /**
   * Processing is at-least-once: when the delete of a processed message
   * fails, the message stays in the queue, and its redelivery is counted
   * again, so the balance holds the amount twice.
   */
  lemma RedeliveryCountsTwice(rows: map<Key, BalanceView>, d: Delivery, redelivery: Delivery)
    requires Applies(d) && d.deleteFails
    requires redelivery.message == d.message && !redelivery.useCaseFails
    ensures var first := Handle(rows, d);
      var second := Handle(first.rows, redelivery);
      var inv := InvocationOf(d);
      && !first.deleted
      && second.rows[KeyOf(inv)].totalCredits == Before(rows, inv).totalCredits + (if inv.kind == Credit then 2.0 * inv.amount else 0.0)
      && second.rows[KeyOf(inv)].totalDebits == Before(rows, inv).totalDebits + (if inv.kind == Credit then 0.0 else 2.0 * inv.amount)
  {
  }

  /** `SqsMessageConsumer`: the breaker it builds, the store its scopes resolve to, and the queue effects. */
  class SqsMessageConsumer {
    const breaker: CircuitBreaker
    const store: DailyBalanceRepository
    var deleted: seq<string>
    var delays: nat

    /**
     * The breaker is the one the constructor builds, and between messages the
     * store has nothing staged and the database holds exactly the rows the
     * scopes see: every change a use case made has been saved.
     */
    ghost predicate Valid()
      reads this, breaker, store, store.Entities()
    {
      && breaker.Valid()
      && breaker.failureThreshold == FailureThreshold && breaker.durationOfBreak == DurationOfBreak
      && store.Valid() && store.pending == []
      && store.saved == store.Rows()
    }

    function State(): ConsumerState
      reads this, breaker, store, store.table.Values
    {
      ConsumerState(breaker.Snapshot(), store.Rows(), deleted, delays)
    }

    constructor (store: DailyBalanceRepository)
      requires store.Valid() && store.pending == [] && store.saved == store.Rows()
      ensures this.store == store && fresh(breaker)
      ensures Valid()
      ensures State() == ConsumerState(Initial, store.Rows(), [], 0)
    {
      breaker := new CircuitBreaker(FailureThreshold, DurationOfBreak);
      this.store := store;
      deleted := [];
      delays := 0;
    }

    /** `ProcessMessageAsync`: check the tag, decode, run the use case, delete; every exception is swallowed. */
    method ProcessMessage(d: Delivery)
      requires Valid()
      modifies this, store, store.table.Values
      ensures Valid()
      ensures var h := Handle(old(store.Rows()), d);
        && store.Rows() == h.rows && store.saved == h.rows
        && deleted == old(deleted) + (if h.deleted then [d.message.receiptHandle] else [])
      ensures delays == old(delays)
      ensures fresh(store.table.Values - old(store.table.Values))
    {
      var message := d.message;
      if message.eventType == Some(EventTypeTag) {
        match message.body
        case Malformed =>
          // the deserializer throws; the exception is logged
        case NullEvent =>
          // logged as undecodable; nothing else happens
        case Decoded(e) =>
          if !d.useCaseFails {
            Execute(store, e.merchantId, e.kind, e.amount, e.transactionDate, d.newId, d.now);
            if !d.deleteFails {
              deleted := deleted + [message.receiptHandle];
            }
          }
      }
    }

    /** The body of the poll loop for one batch: each message through the breaker, in order. */
    method HandleBatch(ds: seq<Delivery>)
      requires Valid()
      modifies this, breaker, store, store.table.Values
      ensures Valid()
      ensures State() == Batch(old(State()), ds)
      ensures store.saved == Batch(old(State()), ds).rows
      ensures fresh(store.table.Values - old(store.table.Values))
    {
      var i := 0;
      while i < |ds|
        invariant 0 <= i <= |ds|
        invariant Valid()
        invariant State() == Batch(old(State()), ds[..i])
        invariant fresh(store.table.Values - old(store.table.Values))
      {
        var d := ds[i];
        ghost var before := State();
        ghost var x := Step(before.breaker, FailureThreshold, DurationOfBreak, d.now, ReturningTrue(Completed(())));
        var _, invoked := breaker.ExecuteVoid(Completed(()), d.now);
        assert breaker.Snapshot() == x.next && invoked == x.invoked;
        if invoked {
          ProcessMessage(d);
          assert breaker.Snapshot() == x.next;
        }
        // otherwise the open-circuit exception is caught and the message stays in the queue
        assert State() == Delivered(before, d);
        assert ds[..i + 1][..i] == ds[..i];
        i := i + 1;
      }
      assert ds[..|ds|] == ds;
    }

    /** `ExecuteAsync`: poll until cancelled; a failed receive pauses (5000 ms in the source) and polls again. */
    method Run(polls: seq<Poll>)
      requires Valid()
      modifies this, breaker, store, store.table.Values
      ensures Valid()
      ensures State() == RunAll(old(State()), polls)
      ensures store.saved == RunAll(old(State()), polls).rows
      ensures Keyed(store.Rows()) && AllConsistent(store.Rows())
    {
      var i := 0;
      while i < |polls|
        invariant 0 <= i <= |polls|
        invariant Valid()
        invariant State() == RunAll(old(State()), polls[..i])
        invariant fresh(store.table.Values - old(store.table.Values))
      {
        match polls[i] {
          case ReceiveFailed =>
            delays := delays + 1;
          case Received(ds) =>
            HandleBatch(ds);
        }
        assert polls[..i + 1][..i] == polls[..i];
        i := i + 1;
      }
      assert polls[..|polls|] == polls;
      store.RowsInvariant();
    }
  }
}
