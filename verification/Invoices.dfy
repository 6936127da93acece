// internal/invoice/invoice.go: statuses and the invoice record.
module Invoices {
  import opened Wrappers
  import opened Money
  import opened Chain

  datatype Status = Pending | Underpaid | Confirming | Paid | Overpaid | Expired {
    predicate IsTerminal() { Paid? || Overpaid? || Expired? }

    predicate IsSettled() { Paid? || Overpaid? }
  }

  // What is fixed when an invoice is created.
  datatype Terms = Terms(
    id: string, merchantId: string, chain: string, asset: Asset, amount: Amount,
    fiatCurrency: string, fiatAmount: string, rate: string,
    receiveAddress: string, paymentURI: string, strategy: Strategy, derivationIndex: nat,
    requiredConfs: int, createdAt: int, expiresAt: int)

  // The value of an invoice: its terms and the six fields that syncing changes.
  datatype Record = Record(
    terms: Terms, status: Status, received: Amount, confirmations: int, txHash: string,
    paidAt: Option<int>, updatedAt: int)

  // What Service.Create stores.
  function NewRecord(terms: Terms): Record {
    Record(terms, Pending, Amount(terms.asset, 0), 0, "", None, terms.createdAt)
  }

  // What Service.Create guarantees of the terms.
  predicate TermsOk(terms: Terms) {
    && terms.amount.asset == terms.asset
    && terms.amount.units >= 1
    && terms.createdAt < terms.expiresAt
    && terms.merchantId != ""
  }

  // An invoice as callers hold it: an object whose fields Sync assigns.
  class Invoice {
    var terms: Terms
    var status: Status
    var received: Amount
    var confirmations: int
    var txHash: string
    var paidAt: Option<int>
    var updatedAt: int

    // A new object with this value, as assigning a struct by value makes one.
    constructor (r: Record)
      ensures Value() == r
    {
      terms, status, received := r.terms, r.status, r.received;
      confirmations, txHash, paidAt, updatedAt := r.confirmations, r.txHash, r.paidAt, r.updatedAt;
    }

    function Value(): Record
      reads this
    {
      Record(terms, status, received, confirmations, txHash, paidAt, updatedAt)
    }
  }

  datatype Event = Event(snapshot: Record, previous: Status)
}
