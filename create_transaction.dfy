/**
 * `CreateTransactionUseCase`: create the transaction, persist it, take the
 * raised events and clear them from the entity, publish each one, and answer
 * with the transaction's fields. The repository and the publisher are seen
 * only through the calls made on them (`trace`) and what each call does
 * (`addOutcome`, `saveOutcome`, `publishOutcome`: no exception, or the one
 * it throws).
 */
module CreateTransaction {
  import opened Common
  import opened Amounts
  import opened Transactions

  /** `CreateTransactionRequest`. */
  datatype CreateTransactionRequest = CreateTransactionRequest(
    merchantId: Guid,
    kind: TransactionType,
    amount: real,
    transactionDate: DateTime,
    description: Option<string>)

  /** `TransactionResponse`. */
  datatype TransactionResponse = TransactionResponse(
    id: Guid,
    merchantId: Guid,
    kind: TransactionType,
    amount: real,
    transactionDate: DateTime,
    description: Option<string>,
    createdAt: DateTime)

  /** A call on the repository or the publisher. */
  datatype Call = AddTransaction(id: Guid) | SaveChanges | Publish(event: DomainEvent)

  /** What the use case returns or throws, and the calls it made. */
  datatype Outcome = Outcome(response: Result<TransactionResponse, Exception>, trace: seq<Call>)

  /**
   * The publish calls made for `events` from index `i` on, stopping after the
   * first one that throws, and that exception if there is one.
   */
  function PublishFrom(events: seq<DomainEvent>, i: nat, publishOutcome: nat -> Option<Exception>): (r: (seq<Call>, Option<Exception>))
    requires i <= |events|
    ensures |r.0| <= |events| - i
    ensures forall j :: 0 <= j < |r.0| ==> r.0[j] == Publish(events[i + j])
    ensures r.1.None? ==> |r.0| == |events| - i
    ensures r.1.Some? ==> |r.0| > 0 && r.1 == publishOutcome(i + |r.0| - 1)
    ensures forall j :: i <= j < i + |r.0| - 1 ==> publishOutcome(j).None?
    ensures r.1.None? ==> forall j :: i <= j < |events| ==> publishOutcome(j).None?
    decreases |events| - i
  {
    if i == |events| then ([], None)
    else if publishOutcome(i).Some? then ([Publish(events[i])], publishOutcome(i))
    else
      var rest := PublishFrom(events, i + 1, publishOutcome);
      ([Publish(events[i])] + rest.0, rest.1)
  }

  /** The specification of `ExecuteAsync`. */
  function Orchestrated(request: CreateTransactionRequest, newId: Guid, now: DateTime, addOutcome: Option<Exception>,
                        saveOutcome: Option<Exception>, publishOutcome: nat -> Option<Exception>): Outcome
  {
    match Amounts.Create(request.amount)
    case Failure(e) => Outcome(Failure(e), [])
    case Success(amount) =>
      if addOutcome.Some? then Outcome(Failure(addOutcome.value), [AddTransaction(newId)])
      else
        var persisted := [AddTransaction(newId), SaveChanges];
        if saveOutcome.Some? then Outcome(Failure(saveOutcome.value), persisted)
        else
          var event := CreatedEvent(newId, request.merchantId, request.kind, amount, request.transactionDate, now);
          var published := PublishFrom([event], 0, publishOutcome);
          var trace := persisted + published.0;
          if published.1.Some? then Outcome(Failure(published.1.value), trace)
          else Outcome(Success(TransactionResponse(newId, request.merchantId, request.kind, request.amount,
                                                   request.transactionDate, request.description, now)), trace)
  }

  /** An invalid amount throws the amount's exception before the repository or the publisher is called. */
  lemma InvalidAmountCallsNothing(request: CreateTransactionRequest, newId: Guid, now: DateTime, addOutcome: Option<Exception>,
                                  saveOutcome: Option<Exception>, publishOutcome: nat -> Option<Exception>)
    requires request.amount <= 0.0
    ensures Orchestrated(request, newId, now, addOutcome, saveOutcome, publishOutcome) == Outcome(Failure(NotPositive), [])
  {
  }

  /**
   * With a valid amount, the transaction is added first; a failed add stops
   * there. Otherwise it is saved, once, before anything else; every later
   * call is a publish; and the response succeeds only when every call
   * succeeded.
   */
  lemma PersistBeforePublish(request: CreateTransactionRequest, newId: Guid, now: DateTime, addOutcome: Option<Exception>,
                             saveOutcome: Option<Exception>, publishOutcome: nat -> Option<Exception>)
    requires request.amount > 0.0
    ensures var o := Orchestrated(request, newId, now, addOutcome, saveOutcome, publishOutcome);
      && |o.trace| >= 1 && o.trace[0] == AddTransaction(newId)
      && (addOutcome.Some? ==> o.trace == [AddTransaction(newId)] && o.response == Failure(addOutcome.value))
      && (addOutcome.None? ==> |o.trace| >= 2 && o.trace[1] == SaveChanges)
      && (forall i :: 2 <= i < |o.trace| ==> o.trace[i].Publish?)
      && (addOutcome.None? && saveOutcome.Some? ==>
            o.trace == [AddTransaction(newId), SaveChanges] && o.response == Failure(saveOutcome.value))
      && (o.response.Success? ==> addOutcome.None? && saveOutcome.None? && publishOutcome(0).None?)
  {
  }

  /**
   * When every call succeeds: exactly one publish, of the event carrying the
   * new transaction's fields, after the save; and the response repeats the
   * request's fields with the new id and creation time.
   */
  lemma SuccessPublishesOnce(request: CreateTransactionRequest, newId: Guid, now: DateTime, publishOutcome: nat -> Option<Exception>)
    requires request.amount > 0.0 && publishOutcome(0).None?
    ensures var o := Orchestrated(request, newId, now, None, None, publishOutcome);
      var event := TransactionCreatedEvent(newId, request.merchantId, request.kind, request.amount, request.transactionDate, now);
      && o.trace == [AddTransaction(newId), SaveChanges, Publish(event)]
      && o.response == Success(TransactionResponse(newId, request.merchantId, request.kind, request.amount,
                                                   request.transactionDate, request.description, now))
  {
  }

  /** A publish that throws reaches the caller, after the transaction has been saved; nothing catches it. */
  lemma PublishFailurePropagates(request: CreateTransactionRequest, newId: Guid, now: DateTime,
                                 publishOutcome: nat -> Option<Exception>, e: Exception)
    requires request.amount > 0.0 && publishOutcome(0) == Some(e)
    ensures var o := Orchestrated(request, newId, now, None, None, publishOutcome);
      && o.response == Failure(e)
      && SaveChanges in o.trace
  {
    var o := Orchestrated(request, newId, now, None, None, publishOutcome);
    assert o.trace[1] == SaveChanges;
  }

  /**
   * `ExecuteAsync`. It returns the transaction it created (or `null` when
   * the amount is refused) so that its event list can be inspected.
   */
  method Execute(request: CreateTransactionRequest, newId: Guid, now: DateTime, addOutcome: Option<Exception>,
                 saveOutcome: Option<Exception>, publishOutcome: nat -> Option<Exception>)
    returns (response: Result<TransactionResponse, Exception>, trace: seq<Call>, transaction: Transaction?)
    ensures Outcome(response, trace) == Orchestrated(request, newId, now, addOutcome, saveOutcome, publishOutcome)
    ensures transaction == null <==> request.amount <= 0.0
    ensures transaction != null && addOutcome.None? && saveOutcome.None? ==> transaction.domainEvents == []
    ensures transaction != null && (addOutcome.Some? || saveOutcome.Some?) ==>
      transaction.domainEvents == [CreatedEvent(newId, request.merchantId, request.kind, transaction.amount, request.transactionDate, now)]
  {
    trace := [];
    transaction := null;
    var created := Transaction.Create(request.merchantId, request.kind, request.amount, request.transactionDate,
                                      request.description, newId, now);
    if created.Failure? {
      response := Failure(created.error);
      return;
    }
    transaction := created.value;
    trace := trace + [AddTransaction(transaction.id)];
    if addOutcome.Some? {
      response := Failure(addOutcome.value);
      return;
    }
    trace := trace + [SaveChanges];
    if saveOutcome.Some? {
      response := Failure(saveOutcome.value);
      return;
    }
    var events := transaction.domainEvents;
    assert transaction.amount == Amounts.Create(request.amount).value;
    assert events == [CreatedEvent(newId, request.merchantId, request.kind, transaction.amount, request.transactionDate, now)];
    transaction.ClearEvents();
    ghost var persisted := trace;
    var i := 0;
    while i < |events|
      invariant 0 <= i <= |events|
      invariant forall j :: 0 <= j < i ==> publishOutcome(j).None?
      invariant trace + PublishFrom(events, i, publishOutcome).0 == persisted + PublishFrom(events, 0, publishOutcome).0
      invariant PublishFrom(events, i, publishOutcome).1 == PublishFrom(events, 0, publishOutcome).1
    {
      trace := trace + [Publish(events[i])];
      if publishOutcome(i).Some? {
        response := Failure(publishOutcome(i).value);
        assert trace == persisted + PublishFrom(events, 0, publishOutcome).0;
        return;
      }
      i := i + 1;
    }
    assert PublishFrom(events, 0, publishOutcome).1 == None;
    assert trace == persisted + PublishFrom(events, 0, publishOutcome).0;
    response := Success(TransactionResponse(transaction.id, transaction.merchantId, transaction.kind, ToDecimal(transaction.amount),
                                            transaction.transactionDate, transaction.description, transaction.createdAt));
  }
}
