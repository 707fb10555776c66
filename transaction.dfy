/**
 * The `Transaction` entity of the transactions service. Its fields are set
 * once by the `Create` factory; the list of domain events it has raised is
 * appended to and cleared in place.
 */
module Transactions {
  import opened Common
  import opened Amounts

  /** `TransactionCreatedEvent`, the only domain event the service raises. */
  datatype DomainEvent = TransactionCreatedEvent(
    transactionId: Guid,
    merchantId: Guid,
    kind: TransactionType,
    amount: real,
    transactionDate: DateTime,
    occurredAt: DateTime)

  /** The event `Create` raises for a transaction with these fields, at time `now`. */
  function CreatedEvent(id: Guid, merchantId: Guid, kind: TransactionType, amount: Amount, transactionDate: DateTime, now: DateTime): (e: DomainEvent)
    ensures e.transactionId == id && e.merchantId == merchantId && e.kind == kind
    ensures e.amount == ToDecimal(amount) && e.transactionDate == transactionDate
  {
    TransactionCreatedEvent(id, merchantId, kind, amount.value, transactionDate, now)
  }

  class Transaction {
    const id: Guid
    const merchantId: Guid
    const kind: TransactionType
    const amount: Amount
    const transactionDate: DateTime
    const description: Option<string>
    const createdAt: DateTime
    var domainEvents: seq<DomainEvent>

    /** The private constructor: the fields as given, no events yet, `CreatedAt` the current time. */
    constructor (id: Guid, merchantId: Guid, kind: TransactionType, amount: Amount, transactionDate: DateTime,
                 description: Option<string>, now: DateTime)
      ensures this.id == id && this.merchantId == merchantId && this.kind == kind && this.amount == amount
      ensures this.transactionDate == transactionDate && this.description == description && createdAt == now
      ensures domainEvents == []
    {
      this.id := id;
      this.merchantId := merchantId;
      this.kind := kind;
      this.amount := amount;
      this.transactionDate := transactionDate;
      this.description := description;
      createdAt := now;
      domainEvents := [];
    }

    /**
     * `Transaction.Create`: validate the amount (an invalid one throws and no
     * transaction exists), then raise exactly one `TransactionCreatedEvent`
     * that carries the new entity's own fields. The new id and the current
     * time are parameters.
     */
    static method Create(merchantId: Guid, kind: TransactionType, amount: real, transactionDate: DateTime,
                         description: Option<string>, newId: Guid, now: DateTime)
      returns (r: Result<Transaction, Exception>)
      ensures r.Success? <==> amount > 0.0
      ensures r.Failure? ==> r.error == NotPositive
      ensures r.Success? ==>
        var t := r.value;
        && fresh(t)
        && t.id == newId && t.merchantId == merchantId && t.kind == kind && ToDecimal(t.amount) == amount
        && t.transactionDate == transactionDate && t.description == description && t.createdAt == now
        && t.domainEvents == [CreatedEvent(t.id, t.merchantId, t.kind, t.amount, t.transactionDate, now)]
    {
      var validated := Amounts.Create(amount);
      match validated
      case Failure(e) =>
        r := Failure(e);
      case Success(value) =>
        var transaction := new Transaction(newId, merchantId, kind, value, transactionDate, description, now);
        transaction.AddEvent(CreatedEvent(transaction.id, transaction.merchantId, transaction.kind, transaction.amount,
                                          transaction.transactionDate, now));
        r := Success(transaction);
    }

    /** `AddEvent`: append at the end, earlier events untouched. */
    method AddEvent(e: DomainEvent)
      modifies this
      ensures domainEvents == old(domainEvents) + [e]
    {
      domainEvents := domainEvents + [e];
    }

    /** `ClearEvents`. */
    method ClearEvents()
      modifies this
      ensures domainEvents == []
    {
      domainEvents := [];
    }
  }
}
