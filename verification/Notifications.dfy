// What is told of the status changes under interleaving: a sync writes, and tells afterwards.
module Notifications {
  import opened Wrappers
  import opened Chain
  import opened Invoices
  import opened Lifecycle
  import opened Interleaving
  import opened Changes
  import Runs

  // ---------- when what is told forms one chain ----------

  // The caller has yet to tell of a change of the invoice.
  predicate Untold(s: State, w: nat, id: string) { IsTelling(s, w) && s.workers[w].copy.terms.id == id }

  ghost predicate AllTold(s: State, id: string) { forall w :: w in s.workers ==> !Untold(s, w, id) }

  // What has been told of the invoice is one chain; it ends in the stored status once
  // nothing is left to tell.
  ghost predicate ToldWell(s: State, id: string) {
    && Runs.IsChain(Runs.EventsOf(s.log, id))
    && (AllTold(s, id) ==> Runs.TellsChain(Runs.State(s.store, s.log), id))
  }

  // Callers go on to tell, in this order.
  function TellAll(s: State, order: seq<nat>): State {
    if order == [] then s else Step(TellAll(s, order[..|order| - 1]), Tell(order[|order| - 1]))
  }

  lemma TellOneMore(s: State, order: seq<nat>, w: nat)
    ensures TellAll(s, order + [w]) == Step(TellAll(s, order), Tell(w))
  {
    assert (order + [w])[..|order|] == order;
  }

  // In whatever order the callers go on to tell, it goes well.
  ghost predicate Safe(s: State, id: string) {
    forall order: seq<nat> :: ToldWell(TellAll(s, order), id)
  }

  ghost predicate AllSafe(s: State) { forall id :: Safe(s, id) }

  ghost predicate AlwaysSafe(acts: seq<Act>) {
    forall n :: 0 <= n <= |acts| ==> AllSafe(Run(acts[..n]))
  }

  // The write starts from the stored status, and if it changes that, every earlier change of
  // the invoice has been told.
  ghost predicate InTurn(s: State, w: nat)
    requires IsWriting(s, w)
  {
    && Current(s, w)
    && (s.workers[w].copy.status != s.workers[w].base.status ==> AllTold(s, s.workers[w].copy.terms.id))
  }

  ghost predicate InTurnWrites(acts: seq<Act>) {
    forall n :: 0 <= n < |acts| && Saves(Run(acts[..n]), acts[n]) ==> InTurn(Run(acts[..n]), acts[n].worker)
  }

  // At most one change of the invoice is untold: the one to the stored status, from the
  // status told last.
  ghost predicate Ready(s: State, id: string) {
    && ToldWell(s, id)
    && (forall v, w :: Untold(s, v, id) && Untold(s, w, id) ==> v == w)
    && (forall w :: Untold(s, w, id) ==>
          && id in s.store && s.store[id].status == s.workers[w].copy.status
          && s.workers[w].previous == Runs.LastStatus(Runs.EventsOf(s.log, id)))
  }

  lemma TellKeepsReady(s: State, w: nat, id: string, terms: set<Terms>)
    requires AllGenuine(s, terms) && Ready(s, id)
    ensures Ready(Step(s, Tell(w)), id)
  {
    hide RecordOk, Runs.IsChain, Runs.EventsOf, Runs.LastStatus;
    if IsTelling(s, w) {
      var worker := s.workers[w];
      assert WorkerGenuine(worker, s.store, terms);
      var e, events := Event(worker.copy, worker.previous), Runs.EventsOf(s.log, id);
      Runs.EventsOfAppend(s.log, e, id);
      if Untold(s, w, id) {
        Runs.ChainGrows(events, e);
        LastTeller(s, w, id);
      } else {
        assert events + [] == events;
        OthersUntold(s, w, id);
      }
    }
  }

  lemma LastTeller(s: State, w: nat, id: string)
    requires Untold(s, w, id) && forall v :: Untold(s, v, id) ==> v == w
    ensures forall v :: !Untold(Step(s, Tell(w)), v, id)
  {
    var t := Step(s, Tell(w));
    forall v
      ensures !Untold(t, v, id)
    {
      assert v != w && v in t.workers ==> v in s.workers && t.workers[v] == s.workers[v];
      assert Untold(t, v, id) ==> Untold(s, v, id);
    }
  }

  lemma OthersUntold(s: State, w: nat, id: string)
    requires IsTelling(s, w) && !Untold(s, w, id)
    ensures forall v :: Untold(Step(s, Tell(w)), v, id) <==> Untold(s, v, id)
    ensures AllTold(Step(s, Tell(w)), id) <==> AllTold(s, id)
  {
    var t := Step(s, Tell(w));
    assert forall v :: v in s.workers <==> v in t.workers;
    assert forall v :: v in s.workers && v != w ==> s.workers[v] == t.workers[v];
    forall v
      ensures Untold(t, v, id) <==> Untold(s, v, id)
    {
    }
  }

  lemma {:induction false} ReadyIsSafe(s: State, order: seq<nat>, id: string, terms: set<Terms>)
    requires AllGenuine(s, terms) && Ready(s, id)
    ensures AllGenuine(TellAll(s, order), terms) && Ready(TellAll(s, order), id)
  {
    hide AllGenuine, Ready, Step;
    if order != [] {
      var n := |order| - 1;
      ReadyIsSafe(s, order[..n], id, terms);
      TellKeepsReady(TellAll(s, order[..n]), order[n], id, terms);
      TellKeepsGenuine(TellAll(s, order[..n]), order[n], terms);
    }
  }

  // A write in its turn keeps the invoice ready.
  lemma InTurnKeepsReady(s: State, w: nat, terms: set<Terms>)
    requires AllGenuine(s, terms) && IsWriting(s, w) && InTurn(s, w)
    requires Ready(s, s.workers[w].copy.terms.id)
    ensures Ready(Step(s, Write(w, true)), s.workers[w].copy.terms.id)
  {
    hide RecordOk, Advance, Runs.IsChain, Runs.EventsOf, Runs.LastStatus;
    assert WorkerGenuine(s.workers[w], s.store, terms);
    WriteMovesOne(s, w, s.workers[w].copy.terms.id);
  }

  // Of whom the write makes a teller.
  lemma WriteMovesOne(s: State, w: nat, id: string)
    requires IsWriting(s, w) && s.workers[w].copy.terms.id in s.store
    ensures var t, worker := Step(s, Write(w, true)), s.workers[w];
            && t.log == s.log
            && (forall v :: v != w ==> (Untold(t, v, id) <==> Untold(s, v, id)))
            && (Untold(t, w, id) <==> worker.copy.terms.id == id && worker.copy.status != worker.base.status)
            && !Untold(s, w, id)
            && (AllTold(t, id) <==> AllTold(s, id) && !Untold(t, w, id))
            && (forall v :: v in s.workers && v != w ==> v in t.workers && t.workers[v] == s.workers[v])
  {
    hide Advance, Decide;
    var t := Step(s, Write(w, true));
    assert forall v :: v in s.workers <==> v in t.workers;
    forall v | v != w
      ensures Untold(t, v, id) <==> Untold(s, v, id)
    {
    }
  }

  lemma OtherWriteKeepsReady(s: State, w: nat, id: string)
    requires IsWriting(s, w) && s.workers[w].copy.terms.id in s.store && s.workers[w].copy.terms.id != id
    requires Ready(s, id)
    ensures Ready(Step(s, Write(w, true)), id)
  {
    hide Runs.IsChain, Runs.EventsOf, Runs.LastStatus;
    WriteMovesOne(s, w, id);
  }

  // A write out of its turn leaves an order of telling that goes wrong.
  lemma OutOfTurnIsUnsafe(s: State, w: nat, terms: set<Terms>)
    requires AllGenuine(s, terms) && IsWriting(s, w) && !InTurn(s, w)
    requires Ready(s, s.workers[w].copy.terms.id)
    ensures !Safe(Step(s, Write(w, true)), s.workers[w].copy.terms.id)
  {
    hide RecordOk, Advance, Decide, Runs.IsChain, Runs.EventsOf, Runs.LastStatus, ToldWell, Ready, AllTold, AllGenuine;
    var id := s.workers[w].copy.terms.id;
    var t := Step(s, Write(w, true));
    if AllTold(s, id) {
      StaleAlone(s, w, terms);
    } else {
      var v := WhoIsUntold(s, id);
      if Current(s, w) {
        LaterFirst(s, w, v, terms);
      } else {
        StaleAfter(s, w, v, terms);
      }
    }
  }

  lemma WhoIsUntold(s: State, id: string) returns (v: nat)
    requires !AllTold(s, id)
    ensures Untold(s, v, id)
  {
    v :| v in s.workers && Untold(s, v, id);
  }

  lemma SafeTells(s: State, order: seq<nat>, id: string)
    requires !ToldWell(TellAll(s, order), id)
    ensures !Safe(s, id)
  {
  }

  // Nothing is untold and the status found is not the one started from: telling at once, or
  // having nothing to tell, does not go on from it.
  lemma StaleAlone(s: State, w: nat, terms: set<Terms>)
    requires AllGenuine(s, terms) && IsWriting(s, w) && !Current(s, w)
    requires Ready(s, s.workers[w].copy.terms.id) && AllTold(s, s.workers[w].copy.terms.id)
    ensures !Safe(Step(s, Write(w, true)), s.workers[w].copy.terms.id)
  {
    hide RecordOk, Advance, Decide, Runs.IsChain, Runs.EventsOf, Runs.LastStatus;
    var worker, id, t := s.workers[w], s.workers[w].copy.terms.id, Step(s, Write(w, true));
    assert WorkerGenuine(worker, s.store, terms);
    WriteMovesOne(s, w, id);
    if worker.copy.status == worker.base.status {
      assert TellAll(t, []) == t;
      SafeTells(t, [], id);
    } else {
      TellsOutOfLine(t, w, id);
    }
  }

  // A change that does not start from the status told last, told next.
  lemma TellsOutOfLine(t: State, w: nat, id: string)
    requires Untold(t, w, id)
    requires t.workers[w].previous != Runs.LastStatus(Runs.EventsOf(t.log, id))
    ensures !Safe(t, id)
  {
    hide Runs.IsChain, Runs.EventsOf, Runs.LastStatus;
    var e, events := Event(t.workers[w].copy, t.workers[w].previous), Runs.EventsOf(t.log, id);
    TellOneMore(t, [], w);
    assert [] + [w] == [w];
    Runs.EventsOfAppend(t.log, e, id);
    if Runs.IsChain(events + [e]) {
      ChainLast(events, e);
    }
    SafeTells(t, [w], id);
  }

  // The write is current but finds an untold change: telling of its own first goes wrong.
  lemma LaterFirst(s: State, w: nat, v: nat, terms: set<Terms>)
    requires AllGenuine(s, terms) && IsWriting(s, w) && Current(s, w) && !InTurn(s, w)
    requires Ready(s, s.workers[w].copy.terms.id) && Untold(s, v, s.workers[w].copy.terms.id)
    ensures !Safe(Step(s, Write(w, true)), s.workers[w].copy.terms.id)
  {
    hide RecordOk, Advance, Decide, Runs.IsChain, Runs.EventsOf, Runs.LastStatus;
    var id := s.workers[w].copy.terms.id;
    assert WorkerGenuine(s.workers[v], s.store, terms);
    assert WorkerGenuine(s.workers[w], s.store, terms);
    WriteMovesOne(s, w, id);
    TellsOutOfLine(Step(s, Write(w, true)), w, id);
  }

  // The write is stale and finds an untold change: telling of that first leaves the chain at
  // a status the write did not start from.
  lemma StaleAfter(s: State, w: nat, v: nat, terms: set<Terms>)
    requires AllGenuine(s, terms) && IsWriting(s, w) && !Current(s, w)
    requires Ready(s, s.workers[w].copy.terms.id) && Untold(s, v, s.workers[w].copy.terms.id)
    ensures !Safe(Step(s, Write(w, true)), s.workers[w].copy.terms.id)
  {
    hide RecordOk, Advance, Decide, Runs.IsChain, Runs.EventsOf, Runs.LastStatus;
    var worker, id, t := s.workers[w], s.workers[w].copy.terms.id, Step(s, Write(w, true));
    assert WorkerGenuine(worker, s.store, terms);
    WriteMovesOne(s, w, id);
    var u := Step(t, Tell(v));
    var events := Runs.EventsOf(s.log, id);
    var e := Event(s.workers[v].copy, s.workers[v].previous);
    TellOneMore(t, [], v);
    assert [] + [v] == [v];
    Runs.EventsOfAppend(s.log, e, id);
    EndsIn(events, e);
    if worker.copy.status == worker.base.status {
      LastTeller(t, v, id);
      SafeTells(t, [v], id);
    } else {
      assert Untold(u, w, id);
      TellsOutOfLine(u, w, id);
      SafeAfter(t, [v], id);
    }
  }

  lemma EndsIn(events: seq<Event>, e: Event)
    ensures Runs.LastStatus(events + [e]) == e.snapshot.status
  {
  }

  lemma {:induction false} TellAllAppend(s: State, a: seq<nat>, b: seq<nat>)
    ensures TellAll(s, a + b) == TellAll(TellAll(s, a), b)
  {
    if b == [] {
      assert a + b == a;
    } else {
      var b' := b[..|b| - 1];
      assert (a + b)[..|a + b| - 1] == a + b';
      TellAllAppend(s, a, b');
    }
  }

  lemma SafeAfter(s: State, order: seq<nat>, id: string)
    ensures Safe(s, id) ==> Safe(TellAll(s, order), id)
  {
    hide ToldWell;
    forall more: seq<nat> | Safe(s, id)
      ensures ToldWell(TellAll(TellAll(s, order), more), id)
    {
      TellAllAppend(s, order, more);
    }
  }

  // Acts that write no status leave what is told and untold as it is.
  lemma QuietActKeepsReady(s: State, a: Act, id: string, terms: set<Terms>)
    requires AllGenuine(s, terms) && Ready(s, id)
    requires !Saves(s, a) && !a.Tell? && (a.New? ==> a.terms.id !in s.store)
    ensures Ready(Step(s, a), id)
  {
    hide RecordOk, Advance, Runs.IsChain, Runs.EventsOf, Runs.LastStatus, Step;
    var t := Step(s, a);
    TellersStay(s, a);
    assert forall w :: Untold(t, w, id) <==> Untold(s, w, id);
    if a.New? {
      NewStores(s, a.terms);
      StartsPending();
      if id == a.terms.id {
        assert AllTold(s, id);
        assert Runs.TellsChain(Runs.State(t.store, t.log), id);
      } else {
        assert ToldWell(t, id);
      }
    } else {
      assert ToldWell(t, id);
    }
  }

  lemma NewStores(s: State, terms: Terms)
    ensures Step(s, New(terms)).store == s.store[terms.id := NewRecord(terms)]
  {
  }

  lemma StartsPending()
    ensures Runs.LastStatus([]) == Pending
  {
  }

  lemma TellersStay(s: State, a: Act)
    requires !Saves(s, a) && !a.Tell?
    ensures var t := Step(s, a);
            && t.log == s.log && (!a.New? ==> t.store == s.store)
            && (forall w :: IsTelling(t, w) <==> IsTelling(s, w))
            && (forall w :: IsTelling(s, w) ==> t.workers[w] == s.workers[w])
            && (forall id :: AllTold(t, id) <==> AllTold(s, id))
  {
    hide Advance;
    var t := Step(s, a);
    TellersKept(s, a);
    forall id
      ensures AllTold(t, id) <==> AllTold(s, id)
    {
      assert forall w :: Untold(t, w, id) <==> Untold(s, w, id);
    }
  }

  lemma TellersKept(s: State, a: Act)
    requires !Saves(s, a) && !a.Tell?
    ensures var t := Step(s, a);
            && t.log == s.log && (!a.New? ==> t.store == s.store)
            && (forall w :: IsTelling(t, w) <==> IsTelling(s, w))
            && (forall w :: IsTelling(s, w) ==> t.workers[w] == s.workers[w])
  {
    hide Advance;
  }

  lemma ActReadyIff(acts: seq<Act>, a: Act)
    requires ProperNews(acts + [a]) && forall id :: Ready(Run(acts), id)
    ensures Saves(Run(acts), a) && !InTurn(Run(acts), a.worker) ==> !AllSafe(Run(acts + [a]))
    ensures (Saves(Run(acts), a) ==> InTurn(Run(acts), a.worker)) ==> forall id :: Ready(Run(acts + [a]), id)
  {
    hide Run, Step, Ready, AllGenuine, InTurn, Saves, Safe;
    var s := Run(acts);
    PrefixProper(acts, a);
    EveryRecordIsGenuine(acts);
    RunSnoc(acts, a);
    var terms := TermsIn(acts);
    if a.New? {
      NewIsUnused(acts, a.terms);
    }
    if Saves(s, a) {
      WriterIsKnown(s, a, terms);
      var written := s.workers[a.worker].copy.terms.id;
      assert Ready(s, written);
      if InTurn(s, a.worker) {
        forall id
          ensures Ready(Step(s, a), id)
        {
          if id == written {
            InTurnKeepsReady(s, a.worker, terms);
          } else {
            OtherWriteKeepsReady(s, a.worker, id);
          }
        }
      } else {
        OutOfTurnIsUnsafe(s, a.worker, terms);
      }
    } else {
      forall id
        ensures Ready(Step(s, a), id)
      {
        if a.Tell? {
          TellKeepsReady(s, a.worker, id, terms);
        } else {
          QuietActKeepsReady(s, a, id, terms);
        }
      }
    }
  }

  lemma WriterIsKnown(s: State, a: Act, terms: set<Terms>)
    requires AllGenuine(s, terms) && Saves(s, a)
    ensures a.Write? && a.saved && IsWriting(s, a.worker) && s.workers[a.worker].copy.terms.id in s.store
  {
    assert WorkerGenuine(s.workers[a.worker], s.store, terms);
  }

  lemma AlwaysSafeOneMore(acts: seq<Act>, a: Act)
    ensures AlwaysSafe(acts + [a]) <==> AlwaysSafe(acts) && AllSafe(Run(acts + [a]))
  {
    hide AllSafe, Step, Run;
    var all := acts + [a];
    assert all[..|all|] == all;
    if AlwaysSafe(all) {
      forall n | 0 <= n <= |acts|
        ensures AllSafe(Run(acts[..n]))
      {
        assert all[..n] == acts[..n];
      }
    }
    if AlwaysSafe(acts) && AllSafe(Run(all)) {
      forall n | 0 <= n <= |all|
        ensures AllSafe(Run(all[..n]))
      {
        assert n <= |acts| ==> all[..n] == acts[..n];
      }
    }
  }

  lemma InTurnOneMore(acts: seq<Act>, a: Act)
    ensures InTurnWrites(acts + [a])
       <==> InTurnWrites(acts) && (Saves(Run(acts), a) ==> InTurn(Run(acts), a.worker))
  {
    hide Run, InTurn;
    var all := acts + [a];
    assert all[..|acts|] == acts && all[|acts|] == a;
    forall n | 0 <= n < |acts|
      ensures all[..n] == acts[..n] && all[n] == acts[n]
    {
    }
  }

  lemma AllReadyIsSafe(s: State, terms: set<Terms>)
    requires AllGenuine(s, terms) && forall id :: Ready(s, id)
    ensures AllSafe(s)
  {
    hide AllGenuine, ToldWell, Runs.EventsOf, Runs.LastStatus;
    forall id, order: seq<nat>
      ensures ToldWell(TellAll(s, order), id)
    {
      ReadyIsSafe(s, order, id, terms);
    }
  }

  // Under every interleaving, at every moment whatever order the outstanding changes are
  // told in leaves each invoice's notifications one chain, ending in its stored status once
  // all are told, if and only if every saved write finds the status it started from still
  // stored and, if it changes that, no earlier change of the invoice untold.
  lemma {:induction false} ChainsToldIff(acts: seq<Act>)
    requires ProperNews(acts)
    ensures AlwaysSafe(acts) <==> InTurnWrites(acts)
    ensures InTurnWrites(acts) ==> forall id :: Ready(Run(acts), id)
  {
    hide AllSafe, InTurn, Saves, Ready, AlwaysSafe, InTurnWrites, ProperNews, Run;
    if acts == [] {
      NothingTold(acts);
    } else {
      var before, a := acts[..|acts| - 1], acts[|acts| - 1];
      assert acts == before + [a];
      PrefixProper(before, a);
      ChainsToldIff(before);
      AlwaysSafeOneMore(before, a);
      InTurnOneMore(before, a);
      if InTurnWrites(before) {
        ActReadyIff(before, a);
        if InTurnWrites(acts) {
          EveryRecordIsGenuine(acts);
          AllReadyIsSafe(Run(acts), TermsIn(acts));
        }
      }
    }
  }

  lemma NothingTold(acts: seq<Act>)
    requires acts == []
    ensures AlwaysSafe(acts) && InTurnWrites(acts) && forall id :: Ready(Run(acts), id)
  {
    assert acts[..0] == [] && AllGenuine(EMPTY, {});
    AllReadyIsSafe(EMPTY, {});
  }

  // ---------- fresh writes do not help the order of telling ----------

  // One caller writes confirming; before it has told, another reads that, writes paid and
  // tells.
  function Crossing(terms: Terms): seq<Act> {
    [New(terms),
     Read(0, terms.id), Observe(0, Observation(true, terms.amount, 0, "tx"), terms.createdAt), Write(0, true),
     Read(1, terms.id), Observe(1, Observation(true, terms.amount, terms.requiredConfs, "tx"), terms.createdAt),
     Write(1, true),
     Tell(1), Tell(0)]
  }

  function InMempool(terms: Terms): Record {
    Record(terms, Confirming, terms.amount, 0, "tx", None, terms.createdAt)
  }

  function FirstWriting(terms: Terms): State {
    var r := NewRecord(terms);
    State(map[terms.id := r], map[0 := Writing(InMempool(terms), r, Crossing(terms)[2].obs, terms.createdAt)], [], [])
  }

  function SecondWriting(terms: Terms): State {
    var r := InMempool(terms);
    State(map[terms.id := r],
          map[0 := Telling(r, Pending), 1 := Writing(Settled(terms), r, Crossing(terms)[5].obs, terms.createdAt)],
          [Event(r, Pending)], [])
  }

  lemma CrossingObserves(terms: Terms)
    requires TermsOk(terms) && terms.requiredConfs >= 1
    ensures Advance(NewRecord(terms), Crossing(terms)[2].obs, terms.createdAt) == InMempool(terms)
    ensures Advance(InMempool(terms), Crossing(terms)[5].obs, terms.createdAt) == Settled(terms)
  {
  }

  lemma FirstComesToWrite(terms: Terms)
    requires TermsOk(terms) && terms.requiredConfs >= 1
    ensures var acts := Crossing(terms);
            Step(Step(Step(EMPTY, acts[0]), acts[1]), acts[2]) == FirstWriting(terms)
  {
    hide Advance, InMempool;
    CrossingObserves(terms);
  }

  lemma SecondComesToWrite(terms: Terms)
    requires TermsOk(terms) && terms.requiredConfs >= 1
    ensures var acts := Crossing(terms);
            Step(Step(Step(FirstWriting(terms), acts[3]), acts[4]), acts[5]) == SecondWriting(terms)
  {
    hide Advance;
    CrossingObserves(terms);
    var acts, r := Crossing(terms), InMempool(terms);
    assert Step(FirstWriting(terms), acts[3])
        == State(map[terms.id := r], map[0 := Telling(r, Pending)], [Event(r, Pending)], []);
  }

  lemma CrossedTelling(terms: Terms)
    ensures var acts := Crossing(terms);
            var t := Step(Step(Step(SecondWriting(terms), acts[6]), acts[7]), acts[8]);
            && t.store == map[terms.id := Settled(terms)]
            && t.changes == [Event(InMempool(terms), Pending), Event(Settled(terms), Confirming)]
            && t.log == [Event(Settled(terms), Confirming), Event(InMempool(terms), Pending)]
  {
  }

  // Every write is fresh, so the changes are those of a serialised run; yet paid is told
  // before confirming, and what is told is no chain.
  lemma FreshWritesTellAcross(terms: Terms)
    requires TermsOk(terms) && terms.requiredConfs >= 1
    ensures var acts := Crossing(terms);
            && ProperNews(acts) && FreshWrites(acts) && CurrentWrites(acts)
            && Run(acts).store == map[terms.id := Settled(terms)] && Settled(terms).status == Paid
            && Run(acts).log == [Event(Settled(terms), Confirming), Event(InMempool(terms), Pending)]
            && !Runs.IsChain(Runs.EventsOf(Run(acts).log, terms.id))
  {
    hide Run, Step, FirstWriting, SecondWriting;
    var acts := Crossing(terms);
    CrossingStates(terms);
    CrossingIsFresh(terms);
    FreshIsCurrent(acts);
    CrossedTelling(terms);
    NoChain(terms);
    SettledIsPaid(terms);
  }

  lemma CrossingStates(terms: Terms)
    requires TermsOk(terms) && terms.requiredConfs >= 1
    ensures var acts := Crossing(terms);
            && Run(acts[..3]) == FirstWriting(terms) && Run(acts[..6]) == SecondWriting(terms)
            && Run(acts) == Step(Step(Step(SecondWriting(terms), acts[6]), acts[7]), acts[8])
  {
    hide Step, FirstWriting, SecondWriting;
    var acts := Crossing(terms);
    FirstComesToWrite(terms);
    SecondComesToWrite(terms);
    ThreeActs(acts, 0);
    ThreeActs(acts, 3);
    ThreeActs(acts, 6);
    assert acts[..0] == [] && acts[..9] == acts;
    assert Run([]) == EMPTY;
  }

  lemma ThreeActs(acts: seq<Act>, n: nat)
    requires n + 3 <= |acts|
    ensures Run(acts[..n + 3]) == Step(Step(Step(Run(acts[..n]), acts[n]), acts[n + 1]), acts[n + 2])
  {
    hide Step;
    RunUnfold(acts, n + 1);
    RunUnfold(acts, n + 2);
    RunUnfold(acts, n + 3);
  }

  lemma CrossingIsFresh(terms: Terms)
    requires Run(Crossing(terms)[..3]) == FirstWriting(terms) && Run(Crossing(terms)[..6]) == SecondWriting(terms)
    ensures FreshWrites(Crossing(terms))
  {
    hide Run;
  }

  lemma NoChain(terms: Terms)
    ensures var told := [Event(Settled(terms), Confirming), Event(InMempool(terms), Pending)];
            !Runs.IsChain(Runs.EventsOf(told, terms.id))
  {
    var paid, seen := Event(Settled(terms), Confirming), Event(InMempool(terms), Pending);
    Runs.EventsOfAppend([], paid, terms.id);
    Runs.EventsOfAppend([paid], seen, terms.id);
    assert [] + [paid] == [paid] && [paid] + [seen] == [paid, seen];
    assert [paid, seen][..0] == [];
  }

  // ---------- nothing is lost or told twice ----------

  // The callers that have yet to tell just this.
  function Tellers(s: State, e: Event): set<nat> {
    set w | w in s.workers && s.workers[w].Telling? && Event(s.workers[w].copy, s.workers[w].previous) == e
  }

  lemma ActConserves(s: State, a: Act, e: Event)
    requires multiset(s.changes)[e] == multiset(s.log)[e] + |Tellers(s, e)|
    ensures var t := Step(s, a);
            multiset(t.changes)[e] == multiset(t.log)[e] + |Tellers(t, e)|
  {
    hide Advance, Tellers;
    var t := Step(s, a);
    if a.Tell? && IsTelling(s, a.worker) {
      TellConserves(s, a.worker, e);
    } else if Saves(s, a) {
      WriteConserves(s, a.worker, e);
    } else if !a.Tell? {
      SameTellers(s, a, e);
    }
  }

  lemma TellConserves(s: State, w: nat, e: Event)
    requires IsTelling(s, w)
    ensures var t, told := Step(s, Tell(w)), Event(s.workers[w].copy, s.workers[w].previous);
            && t.changes == s.changes && t.log == s.log + [told]
            && |Tellers(t, e)| == |Tellers(s, e)| - if told == e then 1 else 0
  {
    var t, told := Step(s, Tell(w)), Event(s.workers[w].copy, s.workers[w].previous);
    if told == e {
      assert Tellers(s, e) == Tellers(t, e) + {w};
    } else {
      assert Tellers(s, e) == Tellers(t, e);
    }
  }

  lemma WriteConserves(s: State, w: nat, e: Event)
    requires IsWriting(s, w)
    ensures var t, made := Step(s, Write(w, true)), Event(s.workers[w].copy, s.workers[w].base.status);
            && t.log == s.log
            && (if s.workers[w].copy.terms.id in s.store && made.snapshot.status != made.previous
                then t.changes == s.changes + [made]
                     && |Tellers(t, e)| == |Tellers(s, e)| + if made == e then 1 else 0
                else t.changes == s.changes && |Tellers(t, e)| == |Tellers(s, e)|)
  {
    var t, made := Step(s, Write(w, true)), Event(s.workers[w].copy, s.workers[w].base.status);
    if s.workers[w].copy.terms.id in s.store && made.snapshot.status != made.previous && made == e {
      assert Tellers(t, e) == Tellers(s, e) + {w};
    } else {
      assert Tellers(t, e) == Tellers(s, e);
    }
  }

  lemma SameTellers(s: State, a: Act, e: Event)
    requires !Saves(s, a) && !a.Tell?
    ensures Step(s, a).changes == s.changes && Step(s, a).log == s.log
    ensures Tellers(Step(s, a), e) == Tellers(s, e)
  {
    hide Step;
    var t := Step(s, a);
    TellersKept(s, a);
    ChangesKept(s, a);
    assert forall w :: w in Tellers(t, e) <==> w in Tellers(s, e) by {
      assert forall w :: w in Tellers(t, e) ==> IsTelling(t, w);
      assert forall w :: w in Tellers(s, e) ==> IsTelling(s, w);
    }
  }

  lemma ChangesKept(s: State, a: Act)
    requires !Saves(s, a)
    ensures Step(s, a).changes == s.changes
  {
    hide Advance;
  }

  // In every run each change that was written has been told exactly once or is yet to be
  // told by the caller that wrote it.
  lemma {:induction false} EachChangeIsToldOnce(acts: seq<Act>, e: Event)
    ensures var s := Run(acts);
            multiset(s.changes)[e] == multiset(s.log)[e] + |Tellers(s, e)|
  {
    if acts == [] {
      assert Tellers(EMPTY, e) == {};
    } else {
      hide Step, Tellers;
      EachChangeIsToldOnce(acts[..|acts| - 1], e);
      ActConserves(Run(acts[..|acts| - 1]), acts[|acts| - 1], e);
    }
  }
}
