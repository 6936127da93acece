// The engine with syncs split into their read, observe, write and notification, interleaved
// at will over copies of any age: several requests and the watcher at once, or a caller who keeps an
// invoice object and syncs it again.
module Interleaving {
  import opened Wrappers
  import opened Chain
  import opened Invoices
  import opened Lifecycle
  import Runs
  import Bitcoin

  // A caller holds nothing, a copy between syncs, a copy that Sync has already changed and
  // is about to write (then `base` is the copy as it was and the rest what was observed), or
  // one that is written with another status, of which it has yet to tell.
  datatype Worker =
    | Holding(copy: Record)
    | Writing(copy: Record, base: Record, obs: Observation, now: int)
    | Telling(copy: Record, previous: Status)

  // `changes` are the status changes in the order they were written, `log` what has been
  // told of them in the order it was emitted.
  datatype State = State(store: map<string, Record>, workers: map<nat, Worker>, changes: seq<Event>, log: seq<Event>)

  // Reading one invoice, or listing the open ones and handing each to a caller, gives copies.
  datatype Act =
    | New(terms: Terms)
    | Read(worker: nat, id: string)
    | List(held: map<nat, string>)
    | Observe(worker: nat, obs: Observation, now: int)
    | Write(worker: nat, saved: bool)
    | Tell(worker: nat)

  const EMPTY := State(map[], map[], [], [])

  predicate IsWriting(s: State, w: nat) { w in s.workers && s.workers[w].Writing? }

  predicate IsTelling(s: State, w: nat) { w in s.workers && s.workers[w].Telling? }

  // Between two syncs.
  predicate IsIdle(s: State, w: nat) { w in s.workers ==> s.workers[w].Holding? }

  // About to sync a copy that is not terminal: only then is the chain looked at.
  predicate MayLook(s: State, w: nat) {
    w in s.workers && s.workers[w].Holding? && !s.workers[w].copy.status.IsTerminal()
  }

  predicate Listable(s: State, w: nat, id: string) {
    IsIdle(s, w) && id in s.store && !s.store[id].status.IsTerminal()
  }

  function Step(s: State, a: Act): State {
    match a
    case New(terms) => s.(store := s.store[terms.id := NewRecord(terms)])
    case Read(w, id) =>
      if !IsIdle(s, w) || id !in s.store then s
      else s.(workers := s.workers[w := Holding(s.store[id])])
    case List(held) =>
      s.(workers := s.workers + map w | w in held && Listable(s, w, held[w]) :: Holding(s.store[held[w]]))
    case Observe(w, obs, now) =>
      if !MayLook(s, w) then s
      else
        var copy := s.workers[w].copy;
        s.(workers := s.workers[w := Writing(Advance(copy, obs, now), copy, obs, now)])
    case Write(w, saved) =>
      if !IsWriting(s, w) then s
      else
        var Writing(copy, base, _, _) := s.workers[w];
        var held := s.workers[w := Holding(copy)];
        if !saved || copy.terms.id !in s.store then s.(workers := held)
        else if copy.status == base.status then s.(store := s.store[copy.terms.id := copy], workers := held)
        else State(s.store[copy.terms.id := copy], s.workers[w := Telling(copy, base.status)],
                   s.changes + [Event(copy, base.status)], s.log)
    case Tell(w) =>
      if !IsTelling(s, w) then s
      else
        var Telling(copy, previous) := s.workers[w];
        s.(workers := s.workers[w := Holding(copy)], log := s.log + [Event(copy, previous)])
  }

  function Run(acts: seq<Act>): State {
    if acts == [] then EMPTY else Step(Run(acts[..|acts| - 1]), acts[|acts| - 1])
  }

  // Reading and listing hand out copies equal to what is stored, to callers between syncs; a
  // listing only of open invoices.
  lemma CopiesAreEqual(s: State, w: nat, id: string)
    requires IsIdle(s, w) && id in s.store
    ensures var t := Step(s, Read(w, id));
            w in t.workers && t.workers[w] == Holding(s.store[id]) && t == s.(workers := t.workers)
    ensures !s.store[id].status.IsTerminal() ==>
              var t := Step(s, List(map[w := id]));
              w in t.workers && t.workers[w] == Holding(s.store[id]) && t == s.(workers := t.workers)
    ensures s.store[id].status.IsTerminal() ==> Step(s, List(map[w := id])).workers == s.workers
  {
  }

  lemma RunSnoc(acts: seq<Act>, a: Act)
    ensures Run(acts + [a]) == Step(Run(acts), a)
  {
    assert (acts + [a])[..|acts|] == acts;
  }

  ghost predicate ProperNews(acts: seq<Act>) {
    && (forall i :: 0 <= i < |acts| && acts[i].New? ==> TermsOk(acts[i].terms))
    && (forall i, j :: 0 <= i < j < |acts| && acts[i].New? && acts[j].New? ==>
          acts[i].terms.id != acts[j].terms.id)
  }

  // A record any run may contain: as RecordOk says, with the terms of a creation.
  ghost predicate Genuine(r: Record, terms: set<Terms>) { RecordOk(r) && r.terms in terms }

  function TermsIn(acts: seq<Act>): set<Terms> { set a | a in acts && a.New? :: a.terms }

  ghost predicate AllGenuine(s: State, terms: set<Terms>) {
    && (forall id :: id in s.store ==> Genuine(s.store[id], terms) && s.store[id].terms.id == id)
    && (forall w :: w in s.workers ==> WorkerGenuine(s.workers[w], s.store, terms))
    && (forall e :: e in s.changes ==> EventGenuine(e, terms))
    && (forall e :: e in s.log ==> EventGenuine(e, terms))
  }

  ghost predicate EventGenuine(e: Event, terms: set<Terms>) {
    Genuine(e.snapshot, terms) && !e.previous.IsTerminal() && e.previous != e.snapshot.status
  }

  ghost predicate WorkerGenuine(worker: Worker, store: map<string, Record>, terms: set<Terms>) {
    && Genuine(worker.copy, terms)
    && worker.copy.terms.id in store
    && (worker.Writing? ==>
          && Genuine(worker.base, terms)
          && !worker.base.status.IsTerminal()
          && worker.copy == Advance(worker.base, worker.obs, worker.now))
    && (worker.Telling? ==> EventGenuine(Event(worker.copy, worker.previous), terms))
  }

  lemma StepKeepsGenuine(s: State, a: Act, terms: set<Terms>)
    requires AllGenuine(s, terms)
    requires a.New? ==> TermsOk(a.terms)
    ensures AllGenuine(Step(s, a), terms + if a.New? then {a.terms} else {})
  {
    hide RecordOk, Advance, NewRecord, AllGenuine;
    assert terms + {} == terms;
    match a
    case New(t) =>
      NewKeepsGenuine(s, t, terms);
    case Read(w, id) =>
      ReadKeepsGenuine(s, w, id, terms);
    case List(held) =>
      ListKeepsGenuine(s, held, terms);
    case Observe(w, obs, now) =>
      ObserveKeepsGenuine(s, w, obs, now, terms);
    case Write(w, saved) =>
      if IsWriting(s, w) {
        WriteKeepsGenuine(s, w, saved, terms);
      }
    case Tell(w) =>
      TellKeepsGenuine(s, w, terms);
  }

  lemma NewKeepsGenuine(s: State, t: Terms, terms: set<Terms>)
    requires AllGenuine(s, terms) && TermsOk(t)
    ensures AllGenuine(Step(s, New(t)), terms + {t})
  {
  }

  lemma ReadKeepsGenuine(s: State, w: nat, id: string, terms: set<Terms>)
    requires AllGenuine(s, terms)
    ensures AllGenuine(Step(s, Read(w, id)), terms)
  {
  }

  lemma ListKeepsGenuine(s: State, held: map<nat, string>, terms: set<Terms>)
    requires AllGenuine(s, terms)
    ensures AllGenuine(Step(s, List(held)), terms)
  {
    hide RecordOk;
  }

  lemma ObserveKeepsGenuine(s: State, w: nat, obs: Observation, now: int, terms: set<Terms>)
    requires AllGenuine(s, terms)
    ensures AllGenuine(Step(s, Observe(w, obs, now)), terms)
  {
    hide RecordOk, Advance;
    if MayLook(s, w) {
      AdvanceOk(s.workers[w].copy, obs, now);
    }
  }

  lemma WriteKeepsGenuine(s: State, w: nat, saved: bool, terms: set<Terms>)
    requires AllGenuine(s, terms) && IsWriting(s, w)
    ensures AllGenuine(Step(s, Write(w, saved)), terms)
  {
    hide RecordOk, Advance;
    assert WorkerGenuine(s.workers[w], s.store, terms);
  }

  lemma TellKeepsGenuine(s: State, w: nat, terms: set<Terms>)
    requires AllGenuine(s, terms)
    ensures AllGenuine(Step(s, Tell(w)), terms)
  {
    hide RecordOk;
  }

  // Under every interleaving, with copies however stale, each stored record, each copy in a
  // caller's hands and each emitted snapshot is as RecordOk says (paid means exactly the
  // amount, overpaid more, both at the required depth, a payment time exactly when
  // settled), and its terms are the ones some invoice was created with.
  lemma {:induction false} EveryRecordIsGenuine(acts: seq<Act>)
    requires ProperNews(acts)
    ensures AllGenuine(Run(acts), TermsIn(acts))
  {
    if acts != [] {
      var n := |acts| - 1;
      var a := acts[n];
      assert acts == acts[..n] + [a];
      EveryRecordIsGenuine(acts[..n]);
      StepKeepsGenuine(Run(acts[..n]), a, TermsIn(acts[..n]));
      assert TermsIn(acts) == TermsIn(acts[..n]) + if a.New? then {a.terms} else {};
    }
  }

  // Identifiers being fresh, the terms of an identifier never change.
  lemma TermsNeverChange(acts: seq<Act>, r: Record, t: Record)
    requires ProperNews(acts)
    requires Genuine(r, TermsIn(acts)) && Genuine(t, TermsIn(acts)) && r.terms.id == t.terms.id
    ensures r.terms == t.terms
  {
  }

  // So a write replaces a record by one with the same terms: only the six fields move.
  lemma WritesKeepTerms(acts: seq<Act>, w: nat)
    requires ProperNews(acts) && IsWriting(Run(acts), w)
    ensures var copy := Run(acts).workers[w].copy;
            copy.terms.id in Run(acts).store && Run(acts).store[copy.terms.id].terms == copy.terms
  {
    EveryRecordIsGenuine(acts);
    var copy := Run(acts).workers[w].copy;
    assert WorkerGenuine(Run(acts).workers[w], Run(acts).store, TermsIn(acts));
    TermsNeverChange(acts, Run(acts).store[copy.terms.id], copy);
  }

  lemma NewIsUnused(acts: seq<Act>, terms: Terms)
    requires ProperNews(acts + [New(terms)])
    ensures terms.id !in Run(acts).store
  {
    var all := acts + [New(terms)];
    assert all[..|acts|] == acts;
    assert ProperNews(acts);
    EveryRecordIsGenuine(acts);
    forall id | id in Run(acts).store
      ensures id != terms.id
    {
      var t := Run(acts).store[id].terms;
      var i :| 0 <= i < |acts| && acts[i] == New(t);
      assert all[i] == acts[i] && all[|acts|] == New(terms);
    }
  }

  lemma PrefixProper(acts: seq<Act>, a: Act)
    requires ProperNews(acts + [a])
    ensures ProperNews(acts)
  {
    assert forall i :: 0 <= i < |acts| ==> (acts + [a])[i] == acts[i];
  }

  // ---------- stale writes ----------

  // The write about to happen starts from the record as it is stored now: what a
  // compare-and-swap on the stored row would check.
  ghost predicate Fresh(s: State, w: nat)
    requires IsWriting(s, w)
  {
    s.workers[w].copy.terms.id in s.store && s.store[s.workers[w].copy.terms.id] == s.workers[w].base
  }

  // The act replaces a stored record.
  predicate Saves(s: State, a: Act) { a.Write? && a.saved && IsWriting(s, a.worker) }

  // What must have been seen for a terminal status.
  predicate Upholds(terms: Terms, status: Status, obs: Observation, now: int)
    requires status.IsTerminal()
  {
    match status
    case Expired => !Funded(terms, obs) && now > terms.expiresAt
    case _ =>
      && obs.seen && obs.confirmations >= terms.requiredConfs
      && if status == Paid then obs.received.units == terms.amount.units else obs.received.units > terms.amount.units
  }

  // A write replaces the stored status by what its writer decided. So a stored paid survives
  // exactly when the writer saw the exact amount at the required depth, overpaid when it saw
  // more at that depth, expired when it saw too little after the window; and a fresh write
  // never meets a terminal status.
  lemma TerminalSurvivesIff(acts: seq<Act>, w: nat)
    requires ProperNews(acts) && IsWriting(Run(acts), w)
    requires var s := Run(acts);
             var id := s.workers[w].copy.terms.id;
             id in s.store && s.store[id].status.IsTerminal()
    ensures var s := Run(acts);
            var t := Step(s, Write(w, true));
            var id := s.workers[w].copy.terms.id;
            var stored := s.store[id];
            && id in t.store && !Fresh(s, w)
            && (t.store[id].status == stored.status
                <==> Upholds(stored.terms, stored.status, s.workers[w].obs, s.workers[w].now))
  {
    hide Decide, Advance, RecordOk, TermsIn, Run;
    EveryRecordIsGenuine(acts);
    WritesKeepTerms(acts, w);
    var worker := Run(acts).workers[w];
    assert WorkerGenuine(worker, Run(acts).store, TermsIn(acts));
    AdvanceKeepsTerms(worker.base, worker.obs, worker.now);
    TermsOfRecord(Run(acts).store[worker.copy.terms.id]);
    DecideMeaning(worker.copy.terms, worker.obs, worker.now);
  }

  lemma TermsOfRecord(r: Record)
    requires RecordOk(r)
    ensures TermsOk(r.terms)
  {
  }

  // It does happen: two callers read the same pending invoice, one settles it, the other,
  // whose backend saw nothing, writes pending back over it.
  function Overwriting(terms: Terms): seq<Act> {
    [New(terms), Read(0, terms.id), Read(1, terms.id),
     Observe(0, Observation(true, terms.amount, terms.requiredConfs, "tx"), terms.createdAt),
     Observe(1, Observation(false, terms.amount, 0, ""), terms.createdAt),
     Write(0, true), Write(1, true)]
  }

  lemma StaleWriteUndoesPaid(terms: Terms)
    requires TermsOk(terms)
    ensures ProperNews(Overwriting(terms))
    ensures Run(Overwriting(terms)[..6]).store == map[terms.id := Settled(terms)]
    ensures Run(Overwriting(terms)).store == map[terms.id := NewRecord(terms)]
    ensures Settled(terms).status == Paid && NewRecord(terms).status == Pending
  {
    hide Run, Step, Settled, AfterReads, AfterLooks;
    FirstActs(Overwriting(terms));
    ReadsDone(terms);
    LooksDone(terms);
    WritesDone(terms);
    SettledIsPaid(terms);
  }

  function AfterReads(terms: Terms): State {
    var r := NewRecord(terms);
    State(map[terms.id := r], map[0 := Holding(r), 1 := Holding(r)], [], [])
  }

  function AfterLooks(terms: Terms): State {
    var r, acts := NewRecord(terms), Overwriting(terms);
    State(map[terms.id := r],
          map[0 := Writing(Settled(terms), r, acts[3].obs, terms.createdAt),
              1 := Writing(r, r, acts[4].obs, terms.createdAt)], [], [])
  }

  lemma ReadsDone(terms: Terms)
    ensures var acts := Overwriting(terms);
            Step(Step(Step(EMPTY, acts[0]), acts[1]), acts[2]) == AfterReads(terms)
  {
  }

  lemma LooksDone(terms: Terms)
    requires TermsOk(terms)
    ensures var acts := Overwriting(terms);
            Step(Step(AfterReads(terms), acts[3]), acts[4]) == AfterLooks(terms)
  {
    hide Advance, Settled;
    var acts := Overwriting(terms);
    AdvancesBothWays(terms, acts[3].obs, acts[4].obs);
  }

  lemma WritesDone(terms: Terms)
    ensures var acts := Overwriting(terms);
            && Step(AfterLooks(terms), acts[5]).store == map[terms.id := Settled(terms)]
            && Step(Step(AfterLooks(terms), acts[5]), acts[6]).store == map[terms.id := NewRecord(terms)]
  {
  }

  lemma SettledIsPaid(terms: Terms)
    ensures Settled(terms).status == Paid
  {
  }

  lemma AdvancesBothWays(terms: Terms, paid: Observation, unseen: Observation)
    requires TermsOk(terms) && !unseen.seen
    requires paid == Observation(true, terms.amount, terms.requiredConfs, "tx")
    ensures Advance(NewRecord(terms), paid, terms.createdAt) == Settled(terms)
    ensures Advance(NewRecord(terms), unseen, terms.createdAt) == NewRecord(terms)
  {
  }

  function Settled(terms: Terms): Record {
    Record(terms, Paid, terms.amount, terms.requiredConfs, "tx", Some(terms.createdAt), terms.createdAt)
  }

  // The states of a run of seven, one act at a time.
  lemma FirstActs(acts: seq<Act>)
    requires |acts| == 7
    ensures var s4 := Step(Step(Step(Step(Step(EMPTY, acts[0]), acts[1]), acts[2]), acts[3]), acts[4]);
            && Run(acts[..6]) == Step(s4, acts[5])
            && Run(acts) == Step(Step(s4, acts[5]), acts[6])
  {
    hide Step;
    RunUnfold(acts, 1);
    RunUnfold(acts, 2);
    RunUnfold(acts, 3);
    RunUnfold(acts, 4);
    RunUnfold(acts, 5);
    RunUnfold(acts, 6);
    RunUnfold(acts, 7);
    assert acts[..0] == [] && acts[..7] == acts;
  }

  lemma RunUnfold(acts: seq<Act>, n: nat)
    requires 0 < n <= |acts|
    ensures Run(acts[..n]) == Step(Run(acts[..n - 1]), acts[n - 1])
  {
    assert acts[..n][..n - 1] == acts[..n - 1];
  }

  // ---------- fresh writes leave what a serialised run leaves ----------

  ghost predicate FreshWrites(acts: seq<Act>) {
    forall n :: 0 <= n < |acts| && Saves(Run(acts[..n]), acts[n]) ==> Fresh(Run(acts[..n]), acts[n].worker)
  }

  // The serialised run with the same creations and with one sync in place of each write.
  function Serialised(acts: seq<Act>): seq<Runs.Label> {
    if acts == [] then []
    else
      var n := |acts| - 1;
      Serialised(acts[..n]) + SerialisedAct(Run(acts[..n]), acts[n])
  }

  function SerialisedAct(s: State, a: Act): seq<Runs.Label> {
    match a
    case New(terms) => [Runs.Create(terms)]
    case Write(w, saved) =>
      if IsWriting(s, w)
      then [Runs.Sync(s.workers[w].copy.terms.id, Observed(s.workers[w].obs, s.workers[w].now, saved))]
      else []
    case _ => []
  }

  ghost predicate SameAs(s: State, t: Runs.State) { s.store == t.store && s.changes == t.log }

  lemma ActMatches(s: State, t: Runs.State, a: Act, terms: set<Terms>)
    requires SameAs(s, t) && AllGenuine(s, terms)
    requires Saves(s, a) ==> Fresh(s, a.worker)
    ensures SameAs(Step(s, a), Runs.RunFrom(t, SerialisedAct(s, a)))
  {
    var labels := SerialisedAct(s, a);
    if labels != [] {
      assert labels[..0] == [];
      assert Runs.RunFrom(t, labels) == Runs.Step(t, labels[0]);
    }
    if a.Write? && IsWriting(s, a.worker) {
      assert WorkerGenuine(s.workers[a.worker], s.store, terms);
      var id := s.workers[a.worker].copy.terms.id;
      assert t.log + [] == t.log;
      if !a.saved {
        assert t.store[id := t.store[id]] == t.store;
      }
    }
  }

  // If no write comes from a stale copy, the interleaved run leaves the store of a serialised
  // run and its changes are what that run tells, in that order; what is told of them may be
  // in another.
  lemma FreshRunsSerialise(acts: seq<Act>)
    requires ProperNews(acts) && FreshWrites(acts)
    ensures SameAs(Run(acts), Runs.Run(Serialised(acts))) && Runs.ProperCreates(Serialised(acts))
  {
    FreshRunsMatch(acts);
    SerialisedIsProper(acts);
  }

  lemma NothingDone()
    ensures SameAs(EMPTY, Runs.Run([]))
  {
  }

  lemma {:induction false} FreshRunsMatch(acts: seq<Act>)
    requires ProperNews(acts) && FreshWrites(acts)
    ensures SameAs(Run(acts), Runs.Run(Serialised(acts)))
  {
    hide Step, Runs.Step, SerialisedAct, AllGenuine, TermsOk, Fresh, SameAs, Saves, Runs.RunFrom, TermsIn;
    if acts == [] {
      NothingDone();
    } else {
      var n := |acts| - 1;
      forall m | 0 <= m < n
        ensures acts[..n][m] == acts[m] && acts[..n][..m] == acts[..m]
      {
      }
      FreshRunsMatch(acts[..n]);
      EveryRecordIsGenuine(acts[..n]);
      var s := Run(acts[..n]);
      ActMatches(s, Runs.Run(Serialised(acts[..n])), acts[n], TermsIn(acts[..n]));
      Runs.RunFromAppend(Runs.EMPTY, Serialised(acts[..n]), SerialisedAct(s, acts[n]));
    }
  }

  lemma {:induction false} SerialisedCreates(acts: seq<Act>, terms: Terms)
    ensures Runs.Create(terms) in Serialised(acts) <==> New(terms) in acts
  {
    if acts != [] {
      var n := |acts| - 1;
      assert acts == acts[..n] + [acts[n]];
      SerialisedCreates(acts[..n], terms);
    }
  }

  lemma {:induction false} SerialisedIsProper(acts: seq<Act>)
    requires ProperNews(acts)
    ensures Runs.ProperCreates(Serialised(acts))
  {
    if acts != [] {
      var n := |acts| - 1;
      SerialisedIsProper(acts[..n]);
      var labels := Serialised(acts[..n]);
      var more := SerialisedAct(Run(acts[..n]), acts[n]);
      forall i | 0 <= i < |labels| && labels[i].Create?
        ensures New(labels[i].terms) in acts[..n]
      {
        SerialisedCreates(acts[..n], labels[i].terms);
      }
      forall i, j | 0 <= i < j < |labels + more| && (labels + more)[i].Create? && (labels + more)[j].Create?
        ensures (labels + more)[i].terms.id != (labels + more)[j].terms.id
      {
        if j == |labels| {
          var k :| 0 <= k < n && acts[..n][k] == New(labels[i].terms);
          assert acts[k].terms.id != acts[n].terms.id;
        }
      }
    }
  }

  // ---------- no false paid, under every interleaving ----------

  // The act looked at an invoice with these terms.
  ghost predicate LooksAt(acts: seq<Act>, i: nat, terms: Terms) {
    && i < |acts| && acts[i].Observe? && MayLook(Run(acts[..i]), acts[i].worker)
    && Run(acts[..i]).workers[acts[i].worker].copy.terms == terms
  }

  ghost predicate DecidedBy(acts: seq<Act>, i: nat, r: Record) {
    LooksAt(acts, i, r.terms) && r.status == Decide(r.terms, acts[i].obs, acts[i].now)
  }

  // The record's status is the first one, or was decided from what some act saw of it.
  ghost predicate Vouched(acts: seq<Act>, r: Record) {
    r.status == Pending || exists i: nat :: DecidedBy(acts, i, r)
  }

  ghost predicate AllVouched(acts: seq<Act>, s: State) {
    && (forall id :: id in s.store ==> Vouched(acts, s.store[id]))
    && (forall w :: w in s.workers ==> Vouched(acts, s.workers[w].copy))
    && (forall e :: e in s.changes + s.log ==> Vouched(acts, e.snapshot))
  }

  lemma VouchedGrows(acts: seq<Act>, a: Act, r: Record)
    requires Vouched(acts, r)
    ensures Vouched(acts + [a], r)
  {
    if r.status != Pending {
      var i: nat :| DecidedBy(acts, i, r);
      assert (acts + [a])[..i] == acts[..i];
      assert DecidedBy(acts + [a], i, r);
    }
  }

  lemma StepKeepsVouched(acts: seq<Act>, a: Act, s: State)
    requires AllVouched(acts + [a], s) && s == Run(acts)
    ensures AllVouched(acts + [a], Step(s, a))
  {
    hide Advance, Decide, Run;
    if a.Observe? && MayLook(s, a.worker) {
      var copy := s.workers[a.worker].copy;
      var advanced := Advance(copy, a.obs, a.now);
      AdvanceKeepsTerms(copy, a.obs, a.now);
      assert (acts + [a])[..|acts|] == acts;
      assert DecidedBy(acts + [a], |acts|, advanced);
    }
  }

  // However syncs interleave, no stored record, held copy or emitted snapshot has a status
  // that was not decided from an observation of that invoice.
  lemma {:induction false} EveryStatusWasDecided(acts: seq<Act>)
    ensures AllVouched(acts, Run(acts))
  {
    if acts != [] {
      var n := |acts| - 1;
      var before, a := acts[..n], acts[n];
      assert acts == before + [a];
      EveryStatusWasDecided(before);
      forall r | Vouched(before, r)
        ensures Vouched(acts, r)
      {
        VouchedGrows(before, a, r);
      }
      StepKeepsVouched(before, a, Run(before));
    }
  }

  ghost predicate SightedAt(acts: seq<Act>, sightings: seq<Bitcoin.Sighting>, terms: Terms) {
    && |sightings| == |acts|
    && forall i: nat :: LooksAt(acts, i, terms) ==>
         Bitcoin.Sighted(sightings[i], terms.asset, terms.receiveAddress, acts[i].obs)
  }

  // So stale writes can lose a payment from view but never invent one: a bitcoin invoice
  // stored or announced as settled was decided so from a look at it at which its amount had
  // been sent to its address at the required depth.
  lemma NeverFalselyPaid(acts: seq<Act>, sightings: seq<Bitcoin.Sighting>, r: Record) returns (i: nat)
    requires (exists id :: id in Run(acts).store && Run(acts).store[id] == r)
          || (exists e :: e in Run(acts).log && e.snapshot == r)
    requires r.status.IsSettled() && SightedAt(acts, sightings, r.terms)
    ensures DecidedBy(acts, i, r) && PaidDeep(r.terms, sightings[i])
  {
    EveryStatusWasDecided(acts);
    i :| DecidedBy(acts, i, r);
    NoFalsePaid(r.terms, sightings[i], acts[i].obs, acts[i].now);
  }

  // And when nothing is assumed of the sums that were read, it was settled rightly exactly
  // when at that look the history held the amount.
  lemma SettledRightlyIffPaid(acts: seq<Act>, sightings: seq<Bitcoin.Sighting>, r: Record) returns (i: nat)
    requires (exists id :: id in Run(acts).store && Run(acts).store[id] == r)
          || (exists e :: e in Run(acts).log && e.snapshot == r)
    requires r.status.IsSettled() && r.terms.requiredConfs >= 1
    requires |sightings| == |acts|
    requires forall i: nat :: LooksAt(acts, i, r.terms) ==>
               Bitcoin.Shown(sightings[i], r.terms.asset, r.terms.receiveAddress, acts[i].obs)
    ensures DecidedBy(acts, i, r)
    ensures PaidDeep(r.terms, sightings[i])
       <==> Bitcoin.TotalPaid(sightings[i].history, r.terms.receiveAddress) >= r.terms.amount.units
  {
    EveryStatusWasDecided(acts);
    i :| DecidedBy(acts, i, r);
    SettledRightlyIff(r.terms, sightings[i], acts[i].obs, acts[i].now);
  }
}
