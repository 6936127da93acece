// internal/chain/btc: reading a payment's total and depth from an address explorer.
module Bitcoin {
  import opened Wrappers
  import opened Text
  import opened Money
  import opened Chain

  datatype Output = Output(address: string, sats: nat)

  datatype Tx = Tx(txid: string, outputs: seq<Output>, confirmed: bool, height: int)

  // What the explorer tells of an address: the received sums, then the tip's height, then
  // the first page of its transactions, newest first.
  datatype View = View(chainSum: int, mempoolSum: int, tip: int, txs: seq<Tx>)

  datatype AddressStatus = AddressStatus(receivedSats: int, confirmations: int, txid: string)

  // New: a non-positive setting becomes two blocks on mainnet and one elsewhere.
  function RequiredConfirmations(mainnet: bool, configured: int): (required: int)
    ensures required >= 1
    ensures configured >= 1 ==> required == configured
    ensures configured <= 0 ==> required == if mainnet then 2 else 1
  {
    if configured <= 0 then if mainnet then 2 else 1 else configured
  }

  predicate Pays(tx: Tx, address: string) {
    exists i :: 0 <= i < |tx.outputs| && tx.outputs[i].address == address
  }

  method PaysAddress(tx: Tx, address: string) returns (pays: bool)
    ensures pays <==> Pays(tx, address)
  {
    for i := 0 to |tx.outputs|
      invariant forall j :: 0 <= j < i ==> tx.outputs[j].address != address
    {
      if tx.outputs[i].address == address {
        return true;
      }
    }
    return false;
  }

  // int(tip - height + 1) in 64-bit arithmetic, never below zero.
  function ReportedDepth(tip: int, tx: Tx): int {
    if !tx.confirmed then 0
    else
      var depth := WrapInt64(WrapInt64(tip - tx.height) + 1);
      if depth < 0 then 0 else depth
  }

  // The first transaction of a list that pays the address.
  function FirstPaying(txs: seq<Tx>, address: string): (i: nat)
    ensures i <= |txs|
    ensures i < |txs| ==> Pays(txs[i], address)
    ensures forall j :: 0 <= j < i ==> !Pays(txs[j], address)
  {
    if txs == [] || Pays(txs[0], address) then 0
    else
      var i := 1 + FirstPaying(txs[1..], address);
      assert forall j :: 1 <= j < i ==> txs[j] == txs[1..][j - 1];
      i
  }

  function StatusOf(view: View, address: string): AddressStatus {
    var total := WrapInt64(view.chainSum + view.mempoolSum);
    if total == 0 then AddressStatus(0, 0, "")
    else
      var i := FirstPaying(view.txs, address);
      if i == |view.txs| then AddressStatus(total, 0, "")
      else AddressStatus(total, ReportedDepth(view.tip, view.txs[i]), view.txs[i].txid)
  }

  // The answers to the three requests, each of which can fail.
  datatype Replies = Replies(stats: Option<(int, int)>, tip: Option<int>, txs: Option<seq<Tx>>)

  // AddressStatus. The later requests are made only when something was received, and a
  // failure is passed on, never taken for an answer.
  method ReadAddressStatus(replies: Replies, address: string) returns (r: Option<AddressStatus>)
    ensures r.Some? <==>
      (replies.stats.Some?
       && (WrapInt64(replies.stats.value.0 + replies.stats.value.1) == 0 || (replies.tip.Some? && replies.txs.Some?)))
    ensures r.Some? ==>
      r.value == StatusOf(View(replies.stats.value.0, replies.stats.value.1,
                               if replies.tip.Some? then replies.tip.value else 0,
                               if replies.txs.Some? then replies.txs.value else []), address)
  {
    if replies.stats.None? {
      return None;
    }
    var total := WrapInt64(replies.stats.value.0 + replies.stats.value.1);
    var status := AddressStatus(total, 0, "");
    if total == 0 {
      return Some(status);
    }
    if replies.tip.None? || replies.txs.None? {
      return None;
    }
    var tip, txs := replies.tip.value, replies.txs.value;
    var i := 0;
    while i < |txs|
      invariant 0 <= i <= |txs|
      invariant forall j :: 0 <= j < i ==> !Pays(txs[j], address)
      invariant status == AddressStatus(total, 0, "")
    {
      var tx := txs[i];
      var pays := PaysAddress(tx, address);
      if !pays {
        i := i + 1;
        continue;
      }
      status := status.(txid := tx.txid);
      if tx.confirmed {
        status := status.(confirmations := WrapInt64(WrapInt64(tip - tx.height) + 1));
        if status.confirmations < 0 {
          status := status.(confirmations := 0);
        }
      }
      assert FirstPaying(txs, address) == i;
      break;
    }
    r := Some(status);
  }

  function CheckPayment(asset: Asset, view: View, address: string): Observation {
    var status := StatusOf(view, address);
    Observation(status.receivedSats != 0, Amount(asset, status.receivedSats), status.confirmations, status.txid)
  }

  // ---------- the chain being observed ----------

  function PaidBy(outputs: seq<Output>, address: string): nat {
    if outputs == [] then 0
    else (if outputs[0].address == address then outputs[0].sats else 0) + PaidBy(outputs[1..], address)
  }

  function TotalPaid(history: seq<Tx>, address: string): nat {
    if history == [] then 0 else PaidBy(history[0].outputs, address) + TotalPaid(history[1..], address)
  }

  // The number of blocks from the transaction's own up to the tip; none in the mempool.
  function Depth(tip: int, tx: Tx): int {
    if !tx.confirmed || tx.height > tip then 0 else tip - tx.height + 1
  }

  function DeepPaid(history: seq<Tx>, address: string, tip: int, depth: int): nat {
    if history == [] then 0
    else (if Depth(tip, history[0]) >= depth then PaidBy(history[0].outputs, address) else 0)
         + DeepPaid(history[1..], address, tip, depth)
  }

  // Newest first: unconfirmed transactions before confirmed ones, heights not increasing.
  ghost predicate NewestFirst(history: seq<Tx>) {
    && (forall i :: 0 <= i < |history| && history[i].confirmed ==> 0 <= history[i].height <= INT64_MAX)
    && (forall i, j :: 0 <= i < j < |history| && history[i].confirmed ==>
          history[j].confirmed && history[j].height <= history[i].height)
  }

  // The reads need not be one snapshot. The transaction list is the start of the history as
  // it stands at the last read; the tip, read before it, is not ahead of the tip at the end.
  // Of the totals, read first, nothing is said.
  ghost predicate Listed(view: View, history: seq<Tx>, tip: int) {
    NewestFirst(history) && view.txs <= history && 0 <= view.tip <= tip && view.tip <= INT64_MAX
  }

  // Moreover the totals count no output the history lacks.
  ghost predicate Consistent(view: View, address: string, history: seq<Tx>, tip: int) {
    && Listed(view, history, tip)
    && 0 <= view.chainSum <= INT64_MAX && 0 <= view.mempoolSum <= INT64_MAX
    && view.chainSum + view.mempoolSum <= TotalPaid(history, address)
  }

  // What the explorer showed at one sync, and the chain it was showing.
  datatype Sighting = Sighting(view: View, history: seq<Tx>, tip: int)

  // The observation came from a reading of the address of which only the list and the tip
  // are known to belong to the history.
  ghost predicate Shown(s: Sighting, asset: Asset, address: string, obs: Observation) {
    obs == CheckPayment(asset, s.view, address) && Listed(s.view, s.history, s.tip)
  }

  // The observation came from a consistent reading of the address.
  ghost predicate Sighted(s: Sighting, asset: Asset, address: string, obs: Observation) {
    && obs == CheckPayment(asset, s.view, address)
    && Consistent(s.view, address, s.history, s.tip)
  }

  // Wrap-around can only make the reported depth smaller.
  lemma ReportedDepthIsSafe(readTip: int, tx: Tx, tip: int)
    requires 0 <= readTip <= tip && readTip <= INT64_MAX
    requires tx.confirmed ==> 0 <= tx.height <= INT64_MAX
    ensures 0 <= ReportedDepth(readTip, tx) <= Depth(tip, tx)
    ensures readTip < INT64_MAX ==> ReportedDepth(readTip, tx) == Depth(readTip, tx)
  {
  }

  // The newest paying transaction has the least depth of all paying ones.
  lemma NewestIsShallowest(history: seq<Tx>, address: string, tip: int, i: nat, depth: int)
    requires NewestFirst(history)
    requires i < |history| && i == FirstPaying(history, address)
    requires Depth(tip, history[i]) >= depth
    ensures DeepPaid(history, address, tip, depth) == TotalPaid(history, address)
  {
    AllDeep(history, address, tip, depth);
  }

  lemma {:induction false} AllDeep(history: seq<Tx>, address: string, tip: int, depth: int)
    requires forall j :: 0 <= j < |history| && Pays(history[j], address) ==> Depth(tip, history[j]) >= depth
    ensures DeepPaid(history, address, tip, depth) == TotalPaid(history, address)
  {
    if history != [] {
      if !Pays(history[0], address) {
        NonPayingPaysNothing(history[0].outputs, address);
      }
      assert forall j :: 0 <= j < |history[1..]| ==> history[1..][j] == history[j + 1];
      AllDeep(history[1..], address, tip, depth);
    }
  }

  lemma {:induction false} NonPayingPaysNothing(outputs: seq<Output>, address: string)
    requires forall i :: 0 <= i < |outputs| ==> outputs[i].address != address
    ensures PaidBy(outputs, address) == 0
  {
    if outputs != [] {
      NonPayingPaysNothing(outputs[1..], address);
    }
  }

  lemma FirstPayingInPrefix(txs: seq<Tx>, history: seq<Tx>, address: string)
    requires txs <= history
    requires FirstPaying(txs, address) < |txs|
    ensures FirstPaying(history, address) == FirstPaying(txs, address)
  {
  }

  // A total reported at the required depth really was paid that deep exactly when the sums
  // that were read count no more than the history holds: what is reported deep enough is
  // everything the address was ever paid, no more and no less.
  lemma ReportedIsDeepIff(asset: Asset, view: View, address: string, history: seq<Tx>, tip: int, required: int)
    requires Listed(view, history, tip) && required >= 1
    requires CheckPayment(asset, view, address).confirmations >= required
    ensures DeepPaid(history, address, tip, required) == TotalPaid(history, address)
    ensures CheckPayment(asset, view, address).received.units <= DeepPaid(history, address, tip, required)
       <==> WrapInt64(view.chainSum + view.mempoolSum) <= TotalPaid(history, address)
  {
    var i := FirstPaying(view.txs, address);
    FirstPayingInPrefix(view.txs, history, address);
    assert history[i] == view.txs[i];
    ReportedDepthIsSafe(view.tip, history[i], tip);
    NewestIsShallowest(history, address, tip, i, required);
  }

  // So under consistent reads whatever total the adapter reports at a given number of
  // confirmations really was paid, in transactions at least that deep.
  lemma ReportedIsDeep(asset: Asset, view: View, address: string, history: seq<Tx>, tip: int, required: int)
    requires Consistent(view, address, history, tip)
    requires CheckPayment(asset, view, address).confirmations >= required
    ensures CheckPayment(asset, view, address).received.units <= DeepPaid(history, address, tip, required)
  {
    assert WrapInt64(view.chainSum + view.mempoolSum) <= view.chainSum + view.mempoolSum;
    if required >= 1 {
      ReportedIsDeepIff(asset, view, address, history, tip, required);
    } else {
      AllDeep(history, address, tip, required);
    }
  }

  // A payment is seen exactly when the sums are not zero, confirmed or not; its depth and
  // identifier are those of the first paying transaction listed, if one is.
  lemma SeenIff(asset: Asset, view: View, address: string)
    ensures var obs := CheckPayment(asset, view, address);
            var total := WrapInt64(view.chainSum + view.mempoolSum);
            && (obs.seen <==> total != 0) && obs.received == Amount(asset, total)
            && (forall i :: 0 <= i < |view.txs| && Pays(view.txs[i], address)
                            && (forall j :: 0 <= j < i ==> !Pays(view.txs[j], address)) ==>
                  total != 0 ==>
                    obs.txHash == view.txs[i].txid && obs.confirmations == ReportedDepth(view.tip, view.txs[i]))
            && (total == 0 || (forall i :: 0 <= i < |view.txs| ==> !Pays(view.txs[i], address)) ==>
                  obs.txHash == "" && obs.confirmations == 0)
  {
  }

  // The reading was of one moment, and the sums were exact.
  ghost predicate Snapshot(view: View, address: string, history: seq<Tx>) {
    && Consistent(view, address, history, view.tip)
    && view.chainSum + view.mempoolSum == TotalPaid(history, address) <= INT64_MAX
    && view.tip < INT64_MAX
  }

  // The list shows a payment, and no payment at all, old or new, is shallower than required.
  ghost predicate DeepEnough(view: View, address: string, history: seq<Tx>, required: int) {
    && (exists j :: 0 <= j < |view.txs| && Pays(view.txs[j], address))
    && (forall j :: 0 <= j < |history| && Pays(history[j], address) ==> Depth(view.tip, history[j]) >= required)
  }

  // On one exact snapshot a payment is seen exactly when the history holds one of a positive
  // amount, in a block or not, with its total; and the depth is reported as reached exactly
  // when it is deep enough: a late small payment holds back an otherwise settled invoice.
  lemma DepthReachedIff(asset: Asset, view: View, address: string, history: seq<Tx>, required: int)
    requires Snapshot(view, address, history) && required >= 1
    ensures var obs := CheckPayment(asset, view, address);
            && (obs.seen <==> TotalPaid(history, address) > 0)
            && obs.received == Amount(asset, TotalPaid(history, address))
            && (obs.confirmations >= required <==>
                  TotalPaid(history, address) > 0 && DeepEnough(view, address, history, required))
  {
  }

  // It does happen that they count more: when a counted mempool payment is gone by the time
  // the list is read, a total is reported at a depth it never had.
  lemma VanishedPaymentIsCounted(asset: Asset) returns (view: View, history: seq<Tx>)
    ensures Listed(view, history, view.tip) && view.txs == history
    ensures CheckPayment(asset, view, "a") == Observation(true, Amount(asset, 100), 10, "old")
    ensures DeepPaid(history, "a", view.tip, 10) == TotalPaid(history, "a") == 1
  {
    var tx := Tx("old", [Output("a", 1)], true, 1);
    history := [tx];
    view := View(1, 99, 10, history);
    assert tx.outputs[0].address == "a";
    assert Pays(tx, "a");
  }
}
