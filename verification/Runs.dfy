// Every run of the engine when each sync starts from a copy equal to the stored record,
// as in one tick of the watcher or one request at a time.
module Runs {
  import opened Wrappers
  import opened Chain
  import opened Invoices
  import opened Lifecycle
  import Bitcoin

  datatype State = State(store: map<string, Record>, log: seq<Event>)

  // Service.Create with the terms it arrived at, or Service.Sync on a fresh copy with
  // whatever the world answered.
  datatype Label = Create(terms: Terms) | Sync(id: string, outcome: Outcome)

  const EMPTY := State(map[], [])

  function Step(s: State, l: Label): State {
    match l
    case Create(terms) => s.(store := s.store[terms.id := NewRecord(terms)])
    case Sync(id, outcome) =>
      if id !in s.store then s
      else State(s.store[id := Synced(s.store[id], outcome)], s.log + Emitted(s.store[id], outcome))
  }

  function RunFrom(s: State, labels: seq<Label>): State {
    if labels == [] then s else Step(RunFrom(s, labels[..|labels| - 1]), labels[|labels| - 1])
  }

  function Run(labels: seq<Label>): State { RunFrom(EMPTY, labels) }

  lemma {:induction false} RunFromAppend(s: State, a: seq<Label>, b: seq<Label>)
    ensures RunFrom(s, a + b) == RunFrom(RunFrom(s, a), b)
  {
    if b == [] {
      assert a + b == a;
    } else {
      var b' := b[..|b| - 1];
      assert (a + b)[..|a + b| - 1] == a + b';
      RunFromAppend(s, a, b');
    }
  }

  // Identifiers are never reused, and terms are what Create guarantees.
  ghost predicate ProperCreates(labels: seq<Label>) {
    && (forall i :: 0 <= i < |labels| && labels[i].Create? ==> TermsOk(labels[i].terms))
    && (forall i, j :: 0 <= i < j < |labels| && labels[i].Create? && labels[j].Create? ==>
          labels[i].terms.id != labels[j].terms.id)
  }

  ghost predicate CreatedBy(labels: seq<Label>, terms: Terms) {
    exists i :: 0 <= i < |labels| && labels[i] == Create(terms)
  }

  lemma PrefixProper(labels: seq<Label>, n: nat)
    requires ProperCreates(labels) && n <= |labels|
    ensures ProperCreates(labels[..n])
  {
  }

  lemma CreatedByGrows(labels: seq<Label>, l: Label, terms: Terms)
    requires CreatedBy(labels, terms)
    ensures CreatedBy(labels + [l], terms)
  {
    var i :| 0 <= i < |labels| && labels[i] == Create(terms);
    assert (labels + [l])[i] == Create(terms);
  }

  // In every run every stored record is as RecordOk says, under its own identifier, with
  // exactly the terms it was created with.
  lemma {:induction false} RunKeepsRecords(labels: seq<Label>, id: string)
    requires ProperCreates(labels)
    requires id in Run(labels).store
    ensures var r := Run(labels).store[id];
            RecordOk(r) && r.terms.id == id && CreatedBy(labels, r.terms)
  {
    var n := |labels| - 1;
    var l := labels[n];
    assert labels == labels[..n] + [l];
    PrefixProper(labels, n);
    var before := Run(labels[..n]);
    if l.Create? && l.terms.id == id {
      assert labels[n] == Create(l.terms);
      NewRecordOk(l.terms);
    } else {
      RunKeepsRecords(labels[..n], id);
      var r := before.store[id];
      CreatedByGrows(labels[..n], l, r.terms);
      if l.Sync? && l.id == id && TakesEffect(r, l.outcome) {
        AdvanceOk(r, l.outcome.obs, l.outcome.now);
      }
    }
  }

  // An invoice is in the store exactly when the run created it.
  lemma {:induction false} StoredIffCreated(labels: seq<Label>, id: string)
    ensures id in Run(labels).store <==> exists i :: 0 <= i < |labels| && labels[i].Create? && labels[i].terms.id == id
  {
    if labels != [] {
      var n := |labels| - 1;
      StoredIffCreated(labels[..n], id);
      if id in Run(labels[..n]).store {
        var i :| 0 <= i < n && labels[..n][i].Create? && labels[..n][i].terms.id == id;
        assert labels[i].Create? && labels[i].terms.id == id;
      }
      if i :| 0 <= i < |labels| && labels[i].Create? && labels[i].terms.id == id {
        if i < n {
          assert labels[..n][i] == labels[i];
        }
      }
    }
  }

  lemma CreateIsFresh(labels: seq<Label>, l: Label)
    requires ProperCreates(labels + [l]) && l.Create?
    ensures l.terms.id !in Run(labels).store
  {
    StoredIffCreated(labels, l.terms.id);
    var all := labels + [l];
    assert all[|labels|] == l;
    forall i | 0 <= i < |labels| && labels[i].Create?
      ensures labels[i].terms.id != l.terms.id
    {
      assert all[i] == labels[i];
    }
  }

  // ---------- the events of one invoice ----------

  function EventsOf(log: seq<Event>, id: string): seq<Event> {
    if log == [] then []
    else
      var rest := EventsOf(log[..|log| - 1], id);
      var last := log[|log| - 1];
      if last.snapshot.terms.id == id then rest + [last] else rest
  }

  lemma EventsOfAppend(log: seq<Event>, e: Event, id: string)
    ensures EventsOf(log + [e], id) == EventsOf(log, id) + if e.snapshot.terms.id == id then [e] else []
  {
  }

  // The status an invoice has after a list of its events.
  function LastStatus(events: seq<Event>): Status {
    if events == [] then Pending else events[|events| - 1].snapshot.status
  }

  // The events tell one story: each starts from the status the one before ended in, the
  // first from pending, each is a change, none leaves a terminal status.
  ghost predicate IsChain(events: seq<Event>) {
    forall i :: 0 <= i < |events| ==>
      && events[i].previous == LastStatus(events[..i])
      && events[i].previous != events[i].snapshot.status
      && !events[i].previous.IsTerminal()
      && RecordOk(events[i].snapshot)
  }

  lemma ChainGrows(events: seq<Event>, e: Event)
    requires IsChain(events)
    requires e.previous == LastStatus(events) != e.snapshot.status
    requires !e.previous.IsTerminal() && RecordOk(e.snapshot)
    ensures IsChain(events + [e]) && LastStatus(events + [e]) == e.snapshot.status
  {
    hide RecordOk;
    var all := events + [e];
    forall i | 0 <= i < |all|
      ensures all[..i] == events[..i]
    {
    }
    assert events[..|events|] == events;
  }

  // In every run, whatever fails, each invoice's events form one chain that ends in its
  // stored status; so a terminal status can only be the last one told.
  lemma {:induction false} EventsFormChain(labels: seq<Label>, id: string)
    requires ProperCreates(labels)
    ensures TellsChain(Run(labels), id)
  {
    if labels != [] {
      var n := |labels| - 1;
      var l := labels[n];
      assert labels == labels[..n] + [l];
      PrefixProper(labels, n);
      EventsFormChain(labels[..n], id);
      var s := Run(labels[..n]);
      if l.Sync? && l.id in s.store {
        RunKeepsRecords(labels[..n], l.id);
        SyncExtendsChain(s, l.id, l.outcome, id);
      } else if l.Create? {
        CreateIsFresh(labels[..n], l);
      }
    }
  }

  ghost predicate TellsChain(s: State, id: string) {
    var events := EventsOf(s.log, id);
    && IsChain(events)
    && (if id in s.store then LastStatus(events) == s.store[id].status else events == [])
  }

  lemma SyncExtendsChain(s: State, synced: string, outcome: Outcome, id: string)
    requires synced in s.store && s.store[synced].terms.id == synced && RecordOk(s.store[synced])
    requires TellsChain(s, id)
    ensures TellsChain(Step(s, Sync(synced, outcome)), id)
  {
    hide Advance, RecordOk, IsChain, EventsOf, LastStatus;
    var r := s.store[synced];
    if TakesEffect(r, outcome) {
      AdvanceOk(r, outcome.obs, outcome.now);
    }
    var told := Emitted(r, outcome);
    if told == [] {
      assert s.log + told == s.log;
    } else {
      var events := EventsOf(s.log, id);
      EventsOfAppend(s.log, told[0], id);
      if synced == id {
        ChainGrows(events, told[0]);
      } else {
        assert events + [] == events;
      }
    }
  }

  lemma TerminalOnlyLast(events: seq<Event>, i: nat)
    requires IsChain(events) && i + 1 < |events|
    ensures !events[i].snapshot.status.IsTerminal()
    ensures events[i + 1].previous == events[i].snapshot.status
  {
  }

  // In a serialised run a terminal record never changes again.
  lemma {:induction false} TerminalStays(labels: seq<Label>, more: seq<Label>, id: string)
    requires ProperCreates(labels + more)
    requires id in Run(labels).store && Run(labels).store[id].status.IsTerminal()
    ensures id in Run(labels + more).store && Run(labels + more).store[id] == Run(labels).store[id]
  {
    if more == [] {
      assert labels + more == labels;
    } else {
      var n := |more| - 1;
      var l := more[n];
      var all := labels + more;
      assert all[..|all| - 1] == labels + more[..n] && all[|all| - 1] == l;
      PrefixProper(all, |all| - 1);
      TerminalStays(labels, more[..n], id);
      assert all == labels + more[..n] + [l];
      if l.Create? {
        CreateIsFresh(labels + more[..n], l);
      }
    }
  }

  // ---------- monotone observations ----------

  // The sync looked at the invoice and what it saw was stored.
  predicate Takes(s: State, l: Label, id: string) {
    l.Sync? && l.id == id && id in s.store && TakesEffect(s.store[id], l.outcome)
  }

  predicate TakesAt(labels: seq<Label>, i: nat, id: string) {
    i < |labels| && Takes(Run(labels[..i]), labels[i], id)
  }

  // Of any two observations of the invoice that the run stored, the later retracts nothing.
  ghost predicate MonotoneFor(labels: seq<Label>, id: string) {
    forall i: nat, j: nat :: i < j && TakesAt(labels, i, id) && TakesAt(labels, j, id) ==>
      NoRetraction(labels[i].outcome.obs, labels[j].outcome.obs)
  }

  lemma MonotonePrefix(labels: seq<Label>, n: nat, id: string)
    requires MonotoneFor(labels, id) && n <= |labels|
    ensures MonotoneFor(labels[..n], id)
  {
    hide Run, Takes;
    forall i: nat | i < n
      ensures TakesAt(labels[..n], i, id) <==> TakesAt(labels, i, id)
    {
      assert labels[..n][..i] == labels[..i];
    }
  }

  // Where a non-pending stored status came from.
  ghost predicate Decided(labels: seq<Label>, i: nat, r: Record) {
    && TakesAt(labels, i, r.terms.id)
    && r.status == Decide(r.terms, labels[i].outcome.obs, labels[i].outcome.now)
  }

  lemma {:induction false} StatusWasDecided(labels: seq<Label>, id: string) returns (i: nat)
    requires ProperCreates(labels) && id in Run(labels).store
    ensures var r := Run(labels).store[id]; r.status == Pending || Decided(labels, i, r)
  {
    var n := |labels| - 1;
    var l := labels[n];
    PrefixProper(labels, n);
    RunKeepsRecords(labels, id);
    var s := Run(labels[..n]);
    if l.Create? && l.terms.id == id {
      i := 0;
    } else {
      RunKeepsRecords(labels[..n], id);
      i := StatusWasDecided(labels[..n], id);
      assert i < n ==> labels[..n][..i] == labels[..i];
      if l.Sync? && l.id == id && TakesEffect(s.store[id], l.outcome) {
        AdvanceOk(s.store[id], l.outcome.obs, l.outcome.now);
        i := n;
      }
    }
  }

  // One more step of a monotone run: whatever it tells about the invoice moves forward.
  lemma StepMovesForward(labels: seq<Label>, l: Label)
    requires ProperCreates(labels + [l]) && l.Sync? && MonotoneFor(labels + [l], l.id)
    requires l.id in Run(labels).store
    ensures forall e :: e in Emitted(Run(labels).store[l.id], l.outcome) ==> Forward(e)
  {
    var all := labels + [l];
    assert all[..|labels|] == labels && all[|labels|] == l;
    PrefixProper(all, |labels|);
    RunKeepsRecords(labels, l.id);
    var r := Run(labels).store[l.id];
    if TakesEffect(r, l.outcome) {
      AdvanceOk(r, l.outcome.obs, l.outcome.now);
      var i := StatusWasDecided(labels, l.id);
      if r.status != Pending {
        assert all[i] == labels[i] && all[..i] == labels[..i];
        assert TakesAt(all, i, l.id) && TakesAt(all, |labels|, l.id);
        DecideMovesForward(r.terms, all[i].outcome.obs, all[i].outcome.now, l.outcome.obs, l.outcome.now);
      }
    }
  }

  // A change strictly further along pending, underpaid, confirming, settled or expired; a
  // lapsed window closes an invoice only while it is unpaid or underpaid.
  predicate Forward(e: Event) {
    && Rank(e.previous) < Rank(e.snapshot.status)
    && (e.snapshot.status == Expired ==> e.previous in {Pending, Underpaid})
  }

  lemma {:induction false} ForwardChainIsShort(events: seq<Event>)
    requires IsChain(events) && forall e :: e in events ==> Forward(e)
    ensures |events| <= Rank(LastStatus(events)) <= 3
  {
    if events != [] {
      var n := |events| - 1;
      forall i | 0 <= i < n
        ensures events[..n][i] == events[i] && events[..n][..i] == events[..i]
      {
      }
      ForwardChainIsShort(events[..n]);
      assert events[n] in events;
    }
  }

  lemma {:induction false} EventsMoveForward(labels: seq<Label>, id: string)
    requires ProperCreates(labels) && MonotoneFor(labels, id)
    ensures forall e :: e in EventsOf(Run(labels).log, id) ==> Forward(e)
  {
    if labels != [] {
      hide Synced, Emitted;
      var n := |labels| - 1;
      var l := labels[n];
      assert labels == labels[..n] + [l];
      PrefixProper(labels, n);
      MonotonePrefix(labels, n, id);
      EventsMoveForward(labels[..n], id);
      var s := Run(labels[..n]);
      if l.Sync? && l.id in s.store {
        RunKeepsRecords(labels[..n], l.id);
        var r := s.store[l.id];
        EmittedIsAboutIt(r, l.outcome);
        var told := Emitted(r, l.outcome);
        if told == [] {
          assert s.log + told == s.log;
        } else {
          EventsOfAppend(s.log, told[0], id);
          if l.id == id {
            StepMovesForward(labels[..n], l);
          }
        }
      }
    }
  }

  lemma EmittedIsAboutIt(r: Record, outcome: Outcome)
    ensures Emitted(r, outcome) == [] || exists e :: Emitted(r, outcome) == [e] && e.snapshot.terms == r.terms
  {
  }

  // With monotone observations each invoice tells at most three events in any run, each
  // strictly further along, whatever its confirmations do.
  lemma AtMostThreeEvents(labels: seq<Label>, id: string)
    requires ProperCreates(labels) && MonotoneFor(labels, id)
    ensures var events := EventsOf(Run(labels).log, id);
            (forall e :: e in events ==> Forward(e)) && |events| <= Rank(LastStatus(events)) <= 3
  {
    EventsFormChain(labels, id);
    EventsMoveForward(labels, id);
    ForwardChainIsShort(EventsOf(Run(labels).log, id));
  }

  // ---------- no false paid, over whole runs ----------

  // Every observation of the invoice that was stored came from a consistent reading of its address.
  ghost predicate SightedAt(labels: seq<Label>, sightings: seq<Bitcoin.Sighting>, terms: Terms) {
    && |sightings| == |labels|
    && forall i: nat :: TakesAt(labels, i, terms.id) ==>
         Bitcoin.Sighted(sightings[i], terms.asset, terms.receiveAddress, labels[i].outcome.obs)
  }

  // In every run a bitcoin invoice stored as paid or overpaid was settled by a sync at which
  // its amount had been sent to its address in transactions as deep as it requires.
  lemma SettledWasPaidDeep(labels: seq<Label>, sightings: seq<Bitcoin.Sighting>, id: string) returns (i: nat)
    requires ProperCreates(labels) && id in Run(labels).store
    requires Run(labels).store[id].status.IsSettled()
    requires SightedAt(labels, sightings, Run(labels).store[id].terms)
    ensures var r := Run(labels).store[id]; Decided(labels, i, r) && PaidDeep(r.terms, sightings[i])
  {
    RunKeepsRecords(labels, id);
    i := StatusWasDecided(labels, id);
    NoFalsePaid(Run(labels).store[id].terms, sightings[i], labels[i].outcome.obs, labels[i].outcome.now);
  }
}
