// internal/chain: what an adapter hands to the invoice engine.
module Chain {
  import opened Money

  datatype Strategy = AddressPerInvoice | UniqueAmount

  datatype ReceiveTarget = ReceiveTarget(address: string, exactAmount: Amount, strategy: Strategy, derivationIndex: nat)

  datatype Observation = Observation(seen: bool, received: Amount, confirmations: int, txHash: string)
}
