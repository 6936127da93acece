// internal/chain/mock: the simulated chain.
module Sandbox {
  import opened Wrappers
  import opened Text
  import opened Money
  import opened Chain

  datatype Entry = Entry(received: Amount, confirmations: int, txHash: string)

  // "sbx1q%08d".
  function Address(index: nat): string { "sbx1q" + Padded8(index) }

  function Padded8(index: nat): (s: string)
    ensures AllDigits(s) && Nat(s) == index
    ensures |s| == 8 || (|s| > 8 && s[0] != '0')
  {
    var s := Digits(index);
    if |s| >= 8 then s
    else
      NatConcat(Zeros(8 - |s|), s);
      NatZeros(8 - |s|);
      Zeros(8 - |s|) + s
  }

  lemma AddressInjective(m: nat, n: nat)
    requires Address(m) == Address(n)
    ensures m == n
  {
    assert Address(m)[5..] == Padded8(m) && Address(n)[5..] == Padded8(n);
  }

  // After the prefix stands the index, in eight digits as long as it has no more.
  lemma AddressShape(index: nat)
    ensures var s := Address(index);
            && "sbx1q" <= s && |s| >= 13 && AllDigits(s[5..]) && Nat(s[5..]) == index
            && (|s| == 13 || s[5] != '0')
  {
    assert Address(index)[5..] == Padded8(index);
  }

  function DeriveReceiveTarget(index: nat, requested: Amount): ReceiveTarget {
    ReceiveTarget(Address(index), requested, AddressPerInvoice, index)
  }

  function CheckLedger(ledger: map<string, Entry>, address: string): Observation {
    if address !in ledger then Observation(false, Amount(TBTC, 0), 0, "")
    else
      var e := ledger[address];
      Observation(true, e.received, e.confirmations, e.txHash)
  }

  // New: at least one confirmation.
  function RequiredConfs(configured: int): (required: int)
    ensures required >= 1 && (required == configured || (configured < 1 && required == 1))
  {
    if configured < 1 then 1 else configured
  }

  class Adapter {
    const requiredConfs: int
    var ledger: map<string, Entry>

    constructor (requiredConfs: int)
      ensures ledger == map[]
      ensures this.requiredConfs == RequiredConfs(requiredConfs)
    {
      this.requiredConfs := RequiredConfs(requiredConfs);
      ledger := map[];
    }

    method CheckPayment(target: ReceiveTarget) returns (obs: Observation)
      ensures obs == CheckLedger(ledger, target.address)
      ensures obs.seen <==> target.address in ledger
    {
      if target.address !in ledger {
        return Observation(false, Amount(TBTC, 0), 0, "");
      }
      var e := ledger[target.address];
      obs := Observation(true, e.received, e.confirmations, e.txHash);
    }

    // Paying again replaces the entry; no other address is touched.
    method Pay(address: string, amount: Amount, confirmations: int, txHash: string)
      modifies this
      ensures ledger == old(ledger)[address := Entry(amount, confirmations, txHash)]
      ensures CheckLedger(ledger, address) == Observation(true, amount, confirmations, txHash)
      ensures forall other :: other != address ==> CheckLedger(ledger, other) == CheckLedger(old(ledger), other)
    {
      ledger := ledger[address := Entry(amount, confirmations, txHash)];
    }
  }
}
