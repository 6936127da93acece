// internal/invoice/service.go: the decision rule and what one sync does to one invoice.
module Lifecycle {
  import opened Wrappers
  import opened Money
  import opened Chain
  import opened Invoices
  import Text
  import Bitcoin

  // Service.decide; DecideMeaning says what each answer means.
  function Decide(terms: Terms, obs: Observation, now: int): Status {
    var expired := now > terms.expiresAt;
    if !obs.seen || obs.received.IsZero() then
      if expired then Expired else Pending
    else
      var cmp := Cmp(obs.received, terms.amount);
      if cmp < 0 then
        if expired then Expired else Underpaid
      else if obs.confirmations < terms.requiredConfs then Confirming
      else if cmp > 0 then Overpaid
      else Paid
  }

  // The full amount is in sight.
  predicate Funded(terms: Terms, obs: Observation) { obs.seen && obs.received.units >= terms.amount.units }

  // Each status is decided exactly when its meaning holds. Money in full keeps an invoice
  // from expiring; at the required depth it settles it; anything less lapses with the window.
  lemma DecideMeaning(terms: Terms, obs: Observation, now: int)
    requires TermsOk(terms)
    ensures var s := Decide(terms, obs, now);
            && (s.IsSettled() <==> Funded(terms, obs) && obs.confirmations >= terms.requiredConfs)
            && (s == Overpaid <==> s.IsSettled() && obs.received.units > terms.amount.units)
            && (s == Confirming <==> Funded(terms, obs) && obs.confirmations < terms.requiredConfs)
            && (s == Expired <==> !Funded(terms, obs) && now > terms.expiresAt)
            && (s == Underpaid <==>
                  !Funded(terms, obs) && now <= terms.expiresAt && obs.seen && obs.received.units != 0)
            && (s == Pending <==>
                  !Funded(terms, obs) && now <= terms.expiresAt && (obs.seen ==> obs.received.units == 0))
  {
  }

  // The invoice after a sync that got an observation, whether or not the write succeeds.
  function Advance(r: Record, obs: Observation, now: int): Record {
    var next := Decide(r.terms, obs, now);
    var seen :=
      if obs.seen then
        r.(received := obs.received, confirmations := obs.confirmations,
           txHash := if obs.txHash != "" then obs.txHash else r.txHash)
      else r;
    if next == r.status then seen.(updatedAt := now)
    else
      seen.(updatedAt := now, status := next,
            paidAt := if next.IsSettled() && r.paidAt.None? then Some(now) else r.paidAt)
  }

  lemma AdvanceKeepsTerms(r: Record, obs: Observation, now: int)
    ensures Advance(r, obs, now).terms == r.terms
    ensures Advance(r, obs, now).status == Decide(r.terms, obs, now)
    ensures !obs.seen ==> Advance(r, obs, now).received == r.received
  {
  }

  // What the world answers during one sync: no adapter for the chain, a failing backend, or
  // an observation with the clock's time and whether the repository then took the write.
  datatype Outcome = LookupFailed | CheckFailed | Observed(obs: Observation, now: int, saved: bool)

  predicate TakesEffect(r: Record, outcome: Outcome) {
    !r.status.IsTerminal() && outcome.Observed? && outcome.saved
  }

  // The stored record after a sync of an equal copy.
  function Synced(r: Record, outcome: Outcome): Record {
    if TakesEffect(r, outcome) then Advance(r, outcome.obs, outcome.now) else r
  }

  // What that sync emits.
  function Emitted(r: Record, outcome: Outcome): seq<Event> {
    if TakesEffect(r, outcome) && Synced(r, outcome).status != r.status
    then [Event(Synced(r, outcome), r.status)] else []
  }

  // ---------- what every record satisfies ----------

  predicate RecordOk(r: Record) {
    && TermsOk(r.terms)
    && (r.status == Paid ==> r.received.units == r.terms.amount.units)
    && (r.status == Overpaid ==> r.received.units > r.terms.amount.units)
    && (r.status.IsSettled() ==> r.confirmations >= r.terms.requiredConfs)
    && (r.paidAt.Some? <==> r.status.IsSettled())
    && (r.status == Expired ==> r.updatedAt > r.terms.expiresAt)
  }

  lemma NewRecordOk(terms: Terms)
    requires TermsOk(terms)
    ensures RecordOk(NewRecord(terms))
  {
  }

  // A sync keeps what every record satisfies, leaves the terms alone, takes over what was
  // seen (and keeps what was seen before when now nothing is), and dates a settlement by
  // the sync that made it.
  lemma AdvanceOk(r: Record, obs: Observation, now: int)
    requires RecordOk(r) && !r.status.IsTerminal()
    ensures var r' := Advance(r, obs, now);
            && RecordOk(r') && r'.terms == r.terms && r'.status == Decide(r.terms, obs, now)
            && r'.updatedAt == now && (r'.paidAt.Some? ==> r'.paidAt == Some(now))
            && (obs.seen ==> r'.received == obs.received && r'.confirmations == obs.confirmations)
            && (obs.seen ==> r'.txHash == if obs.txHash == "" then r.txHash else obs.txHash)
            && (!obs.seen ==> (r'.received, r'.confirmations, r'.txHash) == (r.received, r.confirmations, r.txHash))
  {
  }

  // At the sighting the invoice's amount had been sent to its address in transactions at
  // least as deep as it requires.
  ghost predicate PaidDeep(terms: Terms, s: Bitcoin.Sighting) {
    Bitcoin.DeepPaid(s.history, terms.receiveAddress, s.tip, terms.requiredConfs) >= terms.amount.units
  }

  // No false paid: a bitcoin invoice is decided settled only when it is paid that deep.
  lemma NoFalsePaid(terms: Terms, s: Bitcoin.Sighting, obs: Observation, now: int)
    requires Bitcoin.Sighted(s, terms.asset, terms.receiveAddress, obs)
    requires Decide(terms, obs, now).IsSettled()
    ensures PaidDeep(terms, s)
  {
    Bitcoin.ReportedIsDeep(terms.asset, s.view, terms.receiveAddress, s.history, s.tip, terms.requiredConfs);
  }

  // Without assuming anything of the sums that were read: a decision to settle is right
  // exactly when the history, as it stands, holds the amount at all.
  lemma SettledRightlyIff(terms: Terms, s: Bitcoin.Sighting, obs: Observation, now: int)
    requires terms.requiredConfs >= 1
    requires Bitcoin.Shown(s, terms.asset, terms.receiveAddress, obs)
    requires Decide(terms, obs, now).IsSettled()
    ensures PaidDeep(terms, s) <==> Bitcoin.TotalPaid(s.history, terms.receiveAddress) >= terms.amount.units
    ensures obs.received.units <= Bitcoin.TotalPaid(s.history, terms.receiveAddress) ==> PaidDeep(terms, s)
  {
    Bitcoin.ReportedIsDeepIff(terms.asset, s.view, terms.receiveAddress, s.history, s.tip, terms.requiredConfs);
  }

  // On one exact snapshot every status is decided by the history. Money in full settles it
  // when every payment is deep enough and is confirming until then, whatever the time; less
  // is pending or underpaid within the window and expired after it.
  lemma SettlesIff(r: Record, view: Bitcoin.View, history: seq<Bitcoin.Tx>, now: int)
    requires RecordOk(r) && !r.status.IsTerminal() && r.terms.requiredConfs >= 1
    requires Bitcoin.Snapshot(view, r.terms.receiveAddress, history)
    ensures var t := r.terms;
            var total := Bitcoin.TotalPaid(history, t.receiveAddress);
            var deep := Bitcoin.DeepEnough(view, t.receiveAddress, history, t.requiredConfs);
            var s := Advance(r, Bitcoin.CheckPayment(t.asset, view, t.receiveAddress), now).status;
            && (s == Paid <==> total == t.amount.units && deep)
            && (s == Overpaid <==> total > t.amount.units && deep)
            && (s == Confirming <==> total >= t.amount.units && !deep)
            && (s == Underpaid <==> 0 < total < t.amount.units && now <= t.expiresAt)
            && (s == Pending <==> total == 0 && now <= t.expiresAt)
            && (s == Expired <==> total < t.amount.units && now > t.expiresAt)
  {
    hide Bitcoin.Snapshot, Bitcoin.DeepEnough, Bitcoin.CheckPayment, Decide, Advance;
    var t := r.terms;
    var obs := Bitcoin.CheckPayment(t.asset, view, t.receiveAddress);
    AdvanceOk(r, obs, now);
    DecideMeaning(t, obs, now);
    Bitcoin.DepthReachedIff(t.asset, view, t.receiveAddress, history, t.requiredConfs);
  }

  // ---------- moving forward ----------

  function Rank(s: Status): nat {
    match s
    case Pending => 0
    case Underpaid => 1
    case Confirming => 2
    case _ => 3
  }

  // Of two observations of one target, the later retracts nothing; amounts are not negative.
  predicate NoRetraction(earlier: Observation, later: Observation) {
    && (earlier.seen ==> later.seen && 0 <= earlier.received.units <= later.received.units)
  }

  // Confirmations may do as they like: without retraction the decision moves only forward,
  // and a lapsed window closes an invoice only while it is unpaid or underpaid.
  lemma DecideMovesForward(terms: Terms, earlier: Observation, before: int, later: Observation, now: int)
    requires TermsOk(terms) && NoRetraction(earlier, later)
    requires !Decide(terms, earlier, before).IsTerminal()
    ensures Rank(Decide(terms, earlier, before)) <= Rank(Decide(terms, later, now))
    ensures Decide(terms, later, now) == Expired ==> Decide(terms, earlier, before) in {Pending, Underpaid}
    ensures Decide(terms, earlier, before) == Confirming ==> Decide(terms, later, now) in {Confirming, Paid, Overpaid}
  {
  }

  // Rising amounts alone are not enough: from a negative amount an invoice can fall back
  // from underpaid to pending, and that is the only way it can.
  lemma FallsBackIff(terms: Terms, earlier: Observation, before: int, later: Observation, now: int)
    requires TermsOk(terms)
    requires earlier.seen ==> later.seen && earlier.received.units <= later.received.units
    requires !Decide(terms, earlier, before).IsTerminal()
    ensures Rank(Decide(terms, earlier, before)) > Rank(Decide(terms, later, now))
       <==> earlier.seen && earlier.received.units < 0 && later.received.units == 0 && now <= terms.expiresAt
  {
  }

  // ---------- the stored status as a function of the stored fields ----------

  // What the stored fields alone would decide.
  function ImpliedStatus(r: Record): Status {
    Decide(r.terms, Observation(true, r.received, r.confirmations, ""), r.updatedAt)
  }

  // After an observation the stored status follows from the stored fields, unless the
  // adapter now reports unseen and the amount it once reported was kept: then it does so
  // only if the window has lapsed on too small an amount.
  lemma StatusImpliedIff(r: Record, obs: Observation, now: int)
    requires !r.status.IsTerminal()
    ensures var r' := Advance(r, obs, now);
            r'.status == ImpliedStatus(r') <==>
              || obs.seen
              || r.received.IsZero()
              || (r.received.units < r.terms.amount.units && now > r.terms.expiresAt)
  {
  }

  // With the same observation and no deadline passed in between, a second sync changes
  // neither status nor what was observed.
  lemma SecondSyncIsQuiet(r: Record, obs: Observation, before: int, now: int)
    requires !r.status.IsTerminal()
    requires (before > r.terms.expiresAt) == (now > r.terms.expiresAt)
    ensures var once := Advance(r, obs, before);
            var twice := Synced(once, Observed(obs, now, true));
            && Emitted(once, Observed(obs, now, true)) == []
            && twice.(updatedAt := once.updatedAt) == once
  {
  }
}
