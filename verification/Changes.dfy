// The status changes of an invoice in the order they are written, under interleaving.
module Changes {
  import opened Chain
  import opened Invoices
  import opened Lifecycle
  import opened Interleaving
  import Runs

  // The stored status is still the one the writer started from; other fields may have moved.
  ghost predicate Current(s: State, w: nat)
    requires IsWriting(s, w)
  {
    var id := s.workers[w].copy.terms.id;
    id in s.store && s.store[id].status == s.workers[w].base.status
  }

  ghost predicate CurrentWrites(acts: seq<Act>) {
    forall n :: 0 <= n < |acts| && Saves(Run(acts[..n]), acts[n]) ==> Current(Run(acts[..n]), acts[n].worker)
  }

  // The changes of every invoice form a chain that ends in its stored status.
  ghost predicate ChangesChain(s: State) {
    forall id :: Runs.TellsChain(Runs.State(s.store, s.changes), id)
  }

  ghost predicate AlwaysChangesChain(acts: seq<Act>) {
    forall n :: 0 <= n <= |acts| ==> ChangesChain(Run(acts[..n]))
  }

  lemma ChainLast(events: seq<Event>, e: Event)
    requires Runs.IsChain(events + [e])
    ensures e.previous == Runs.LastStatus(events)
  {
    assert (events + [e])[..|events|] == events;
  }

  // Of the invoice written: its chain goes on exactly when the status was current.
  lemma WrittenChainsIff(s: State, w: nat, terms: set<Terms>)
    requires AllGenuine(s, terms) && IsWriting(s, w)
    requires Runs.TellsChain(Runs.State(s.store, s.changes), s.workers[w].copy.terms.id)
    ensures var t := Step(s, Write(w, true));
            Runs.TellsChain(Runs.State(t.store, t.changes), s.workers[w].copy.terms.id) <==> Current(s, w)
  {
    hide RecordOk, Advance, Decide, Runs.IsChain, Runs.EventsOf, Runs.LastStatus;
    var worker := s.workers[w];
    var id := worker.copy.terms.id;
    assert WorkerGenuine(worker, s.store, terms);
    AdvanceKeepsTerms(worker.base, worker.obs, worker.now);
    var events := Runs.EventsOf(s.changes, id);
    if worker.copy.status == worker.base.status {
      assert s.changes + [] == s.changes;
    } else {
      var e := Event(worker.copy, worker.base.status);
      Runs.EventsOfAppend(s.changes, e, id);
      if Current(s, w) {
        Runs.ChainGrows(events, e);
      } else if Runs.IsChain(events + [e]) {
        ChainLast(events, e);
      }
    }
  }

  lemma OthersChainOn(s: State, w: nat, terms: set<Terms>, id: string)
    requires AllGenuine(s, terms) && IsWriting(s, w) && id != s.workers[w].copy.terms.id
    requires Runs.TellsChain(Runs.State(s.store, s.changes), id)
    ensures var t := Step(s, Write(w, true));
            Runs.TellsChain(Runs.State(t.store, t.changes), id)
  {
    hide RecordOk, Advance, Runs.IsChain, Runs.EventsOf, Runs.LastStatus;
    var worker := s.workers[w];
    assert WorkerGenuine(worker, s.store, terms);
    var events := Runs.EventsOf(s.changes, id);
    if worker.copy.status == worker.base.status {
      assert s.changes + [] == s.changes;
    } else {
      Runs.EventsOfAppend(s.changes, Event(worker.copy, worker.base.status), id);
      assert events + [] == events;
    }
  }

  lemma ActChainsIff(acts: seq<Act>, a: Act)
    requires ProperNews(acts + [a]) && ChangesChain(Run(acts))
    ensures ChangesChain(Step(Run(acts), a)) <==> (Saves(Run(acts), a) ==> Current(Run(acts), a.worker))
  {
    hide Run, RecordOk, Advance, Runs.IsChain, Runs.EventsOf, Runs.LastStatus, ProperNews, Runs.TellsChain;
    var s := Run(acts);
    var t := Step(s, a);
    if Saves(s, a) {
      PrefixProper(acts, a);
      EveryRecordIsGenuine(acts);
      var written := s.workers[a.worker].copy.terms.id;
      assert Runs.TellsChain(Runs.State(s.store, s.changes), written);
      WrittenChainsIff(s, a.worker, TermsIn(acts));
      if Current(s, a.worker) {
        forall id
          ensures Runs.TellsChain(Runs.State(t.store, t.changes), id)
        {
          if id != written {
            OthersChainOn(s, a.worker, TermsIn(acts), id);
          }
        }
      }
    } else if a.New? {
      NewIsUnused(acts, a.terms);
      forall id
        ensures Runs.TellsChain(Runs.State(t.store, t.changes), id)
      {
        NewChainsOn(s, a.terms, id);
      }
    } else {
      assert t.store == s.store && t.changes == s.changes;
    }
  }

  lemma NewChainsOn(s: State, terms: Terms, id: string)
    requires terms.id !in s.store && Runs.TellsChain(Runs.State(s.store, s.changes), id)
    ensures var t := Step(s, New(terms));
            Runs.TellsChain(Runs.State(t.store, t.changes), id)
  {
  }

  lemma AlwaysChangesOneMore(acts: seq<Act>, a: Act)
    ensures AlwaysChangesChain(acts + [a]) <==> AlwaysChangesChain(acts) && ChangesChain(Step(Run(acts), a))
    ensures AlwaysChangesChain(acts) ==> ChangesChain(Run(acts))
  {
    hide ChangesChain, Step, Run;
    RunSnoc(acts, a);
    var all := acts + [a];
    assert all[..|all|] == all && acts[..|acts|] == acts;
    if AlwaysChangesChain(all) {
      forall n | 0 <= n <= |acts|
        ensures ChangesChain(Run(acts[..n]))
      {
        assert all[..n] == acts[..n];
      }
    }
    if AlwaysChangesChain(acts) && ChangesChain(Run(all)) {
      forall n | 0 <= n <= |all|
        ensures ChangesChain(Run(all[..n]))
      {
        assert n <= |acts| ==> all[..n] == acts[..n];
      }
    }
  }

  lemma CurrentOneMore(acts: seq<Act>, a: Act)
    ensures CurrentWrites(acts + [a])
       <==> CurrentWrites(acts) && (Saves(Run(acts), a) ==> Current(Run(acts), a.worker))
  {
    hide Run, Current;
    var all := acts + [a];
    assert all[..|acts|] == acts && all[|acts|] == a;
    forall n | 0 <= n < |acts|
      ensures all[..n] == acts[..n] && all[n] == acts[n]
    {
    }
  }

  // Under every interleaving, at every moment each invoice's changes, in the order written,
  // form one chain ending in its stored status, if and only if no saved write finds another
  // status stored than the one its writer started from; fresh writes never do.
  lemma {:induction false} ChangesChainIff(acts: seq<Act>)
    requires ProperNews(acts)
    ensures AlwaysChangesChain(acts) <==> CurrentWrites(acts)
    ensures FreshWrites(acts) ==> AlwaysChangesChain(acts)
  {
    if acts == [] {
      NothingChanged();
    } else {
      hide Step, ChangesChain, Current, Saves, CurrentWrites, AlwaysChangesChain, ProperNews, Run;
      var before, a := acts[..|acts| - 1], acts[|acts| - 1];
      assert acts == before + [a];
      PrefixProper(before, a);
      ChangesChainIff(before);
      AlwaysChangesOneMore(before, a);
      CurrentOneMore(before, a);
      if AlwaysChangesChain(before) {
        ActChainsIff(before, a);
      }
    }
    FreshIsCurrent(acts);
  }

  lemma FreshIsCurrent(acts: seq<Act>)
    ensures FreshWrites(acts) ==> CurrentWrites(acts)
  {
  }

  lemma NothingChanged()
    ensures ChangesChain(EMPTY)
  {
  }
}
