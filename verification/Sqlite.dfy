// internal/store/sqlite.go: the invoice table and the index counters, as a refinement of
// the in-memory repository.
module Sqlite {
  import opened Wrappers
  import opened Text
  import opened Money
  import opened Chain
  import opened Invoices
  import opened Lifecycle
  import opened Repository
  import opened Sandbox
  import Interleaving
  import Gateway

  // A row of the invoices table; amounts are stored as decimal text of their units.
  datatype Row = Row(
    id: string, merchantId: string, chain: string, assetSymbol: string, assetDecimals: nat, amountUnits: string,
    fiatCurrency: string, fiatAmount: string, rate: string, receiveAddress: string, paymentURI: string,
    strategy: Strategy, derivationIndex: nat, status: Status, receivedUnits: string, confirmations: int,
    requiredConfs: int, txHash: string, createdAt: int, expiresAt: int, paidAt: Option<int>, updatedAt: int)

  datatype Table = Table(rows: map<string, Row>, next: map<string, int>)

  function Encode(r: Record): Row {
    var t := r.terms;
    Row(t.id, t.merchantId, t.chain, t.asset.symbol, t.asset.decimals, IntText(t.amount.units),
        t.fiatCurrency, t.fiatAmount, t.rate, t.receiveAddress, t.paymentURI,
        t.strategy, t.derivationIndex, r.status, IntText(r.received.units), r.confirmations,
        t.requiredConfs, r.txHash, t.createdAt, t.expiresAt, r.paidAt, r.updatedAt)
  }

  function ParseAmount(asset: Asset, units: string): Option<Amount> {
    match ScanInt(units)
    case None => None
    case Some(n) => Some(Amount(asset, n))
  }

  // scanInvoice.
  function Decode(row: Row): Option<Record> {
    var asset := Asset(row.assetSymbol, row.assetDecimals);
    match ParseAmount(asset, row.amountUnits)
    case None => None
    case Some(amount) =>
      match ParseAmount(asset, row.receivedUnits)
      case None => None
      case Some(received) =>
        Some(Record(
               Terms(row.id, row.merchantId, row.chain, asset, amount,
                     row.fiatCurrency, row.fiatAmount, row.rate, row.receiveAddress, row.paymentURI,
                     row.strategy, row.derivationIndex, row.requiredConfs, row.createdAt, row.expiresAt),
               row.status, received, row.confirmations, row.txHash, row.paidAt, row.updatedAt))
  }

  // The UPDATE statement's SET list.
  function SetColumns(row: Row, r: Record): Row {
    row.(status := r.status, receivedUnits := IntText(r.received.units), confirmations := r.confirmations,
         txHash := r.txHash, paidAt := r.paidAt, updatedAt := r.updatedAt)
  }

  // A record whose amounts are in its own asset: the table has one pair of asset columns.
  predicate OneAsset(r: Record) {
    r.terms.amount.asset == r.terms.asset && r.received.asset == r.terms.asset
  }

  lemma StoredRowReadsBack(r: Record)
    requires OneAsset(r)
    ensures Decode(Encode(r)) == Some(r)
  {
    hide ScanInt, IntText;
    ScanPrinted(r.terms.amount.units);
    ScanPrinted(r.received.units);
  }

  // Setting the six columns stores a record whole exactly when it has the row's terms: from
  // any other the next read shows the old terms.
  lemma SixColumnsSufficeIff(row: Row, stored: Record, r: Record)
    requires Decode(row) == Some(stored) && r.received.asset == stored.terms.asset
    ensures Decode(SetColumns(row, r)) == Some(r) <==> r.terms == stored.terms
  {
  }

  // ---------- the operations the service issues ----------

  datatype Op = Create(r: Record) | Get(id: string) | Update(r: Record) | ListOpen | NextIndex(merchantId: string)

  datatype Answer = Done | Missing | Fault | Found(r: Record) | Open(rs: set<Record>) | Index(index: nat)

  datatype Memory = Memory(store: map<string, Record>, counters: map<string, nat>)

  function OpenRecords(store: map<string, Record>): set<Record> {
    set id | id in store && !store[id].status.IsTerminal() :: store[id]
  }

  function MemStep(m: Memory, op: Op): (Memory, Answer) {
    match op
    case Create(r) => (m.(store := m.store[r.terms.id := r]), Done)
    case Get(id) => (m, if id in m.store then Found(m.store[id]) else Missing)
    case Update(r) =>
      if r.terms.id in m.store then (m.(store := m.store[r.terms.id := r]), Done) else (m, Missing)
    case ListOpen => (m, Open(OpenRecords(m.store)))
    case NextIndex(merchantId) =>
      var index := if merchantId in m.counters then m.counters[merchantId] else 0;
      (m.(counters := m.counters[merchantId := NextCounter(index)]), Index(index))
  }

  predicate OpenRow(row: Row) { row.status in {Pending, Underpaid, Confirming} }

  function OpenRows(rows: map<string, Row>): set<Row> {
    set id | id in rows && OpenRow(rows[id]) :: rows[id]
  }

  function ListAnswer(rows: map<string, Row>): Answer {
    var open := OpenRows(rows);
    if exists row :: row in open && Decode(row).None? then Fault
    else Open(Decoded(open))
  }

  function Decoded(rows: set<Row>): set<Record> {
    set row | row in rows && Decode(row).Some? :: Decode(row).value
  }

  function SqlStep(t: Table, op: Op): (Table, Answer) {
    match op
    case Create(r) =>
      if r.terms.id in t.rows then (t, Fault)
      else (t.(rows := t.rows[r.terms.id := Encode(r)]), Done)
    case Get(id) =>
      (t, if id !in t.rows then Missing
          else match Decode(t.rows[id])
            case None => Fault
            case Some(r) => Found(r))
    case Update(r) =>
      if r.terms.id !in t.rows then (t, Missing)
      else (t.(rows := t.rows[r.terms.id := SetColumns(t.rows[r.terms.id], r)]), Done)
    case ListOpen => (t, ListAnswer(t.rows))
    case NextIndex(merchantId) =>
      var next := if merchantId in t.next then t.next[merchantId] + 1 else 1;
      (t.(next := t.next[merchantId := next]), Index((next - 1) % UINT32))
  }

  // ---------- simulation ----------

  ghost predicate Simulates(t: Table, m: Memory) {
    && t.rows.Keys == m.store.Keys
    && (forall id :: id in m.store ==>
          m.store[id].terms.id == id && OneAsset(m.store[id]) && Decode(t.rows[id]) == Some(m.store[id]))
    && t.next.Keys == m.counters.Keys
    && (forall id :: id in m.counters ==> t.next[id] >= 0 && m.counters[id] == t.next[id] % UINT32)
  }

  // What the service keeps to: fresh identifiers, and updates of the changing fields only.
  predicate ServiceOp(m: Memory, op: Op) {
    match op
    case Create(r) => r.terms.id !in m.store && OneAsset(r)
    case Update(r) => OneAsset(r) && (r.terms.id in m.store ==> r.terms == m.store[r.terms.id].terms)
    case _ => true
  }

  lemma StepSimulates(t: Table, m: Memory, op: Op)
    requires Simulates(t, m) && ServiceOp(m, op)
    ensures Simulates(SqlStep(t, op).0, MemStep(m, op).0)
    ensures SqlStep(t, op).1 == MemStep(m, op).1
  {
    hide Encode, SetColumns;
    match op
    case Create(r) =>
      CreateSimulates(t, m, r);
    case Get(id) =>
    case Update(r) =>
      UpdateSimulates(t, m, r);
    case ListOpen =>
      ListsAgree(t, m);
    case NextIndex(merchantId) =>
      hide Decode;
      NextCounterCounts(if merchantId in t.next then t.next[merchantId] else 0);
  }

  lemma CreateSimulates(t: Table, m: Memory, r: Record)
    requires Simulates(t, m) && ServiceOp(m, Create(r))
    ensures Simulates(SqlStep(t, Create(r)).0, MemStep(m, Create(r)).0)
    ensures SqlStep(t, Create(r)).1 == MemStep(m, Create(r)).1
  {
    hide Decode, OneAsset;
    StoredRowReadsBack(r);
  }

  lemma UpdateSimulates(t: Table, m: Memory, r: Record)
    requires Simulates(t, m) && ServiceOp(m, Update(r))
    ensures Simulates(SqlStep(t, Update(r)).0, MemStep(m, Update(r)).0)
    ensures SqlStep(t, Update(r)).1 == MemStep(m, Update(r)).1
  {
    hide Decode, SetColumns;
    if r.terms.id in m.store {
      SixColumnsSufficeIff(t.rows[r.terms.id], m.store[r.terms.id], r);
    }
  }

  lemma ListsAgree(t: Table, m: Memory)
    requires Simulates(t, m)
    ensures ListAnswer(t.rows) == Open(OpenRecords(m.store))
  {
  }

  function MemRun(ops: seq<Op>): (Memory, seq<Answer>) {
    if ops == [] then (Memory(map[], map[]), [])
    else
      var (m, answers) := MemRun(ops[..|ops| - 1]);
      var (m', answer) := MemStep(m, ops[|ops| - 1]);
      (m', answers + [answer])
  }

  function SqlRun(ops: seq<Op>): (Table, seq<Answer>) {
    if ops == [] then (Table(map[], map[]), [])
    else
      var (t, answers) := SqlRun(ops[..|ops| - 1]);
      var (t', answer) := SqlStep(t, ops[|ops| - 1]);
      (t', answers + [answer])
  }

  ghost predicate ServiceOps(ops: seq<Op>) {
    forall n :: 0 <= n < |ops| ==> ServiceOp(MemRun(ops[..n]).0, ops[n])
  }

  // On every sequence of operations the service may issue, the table gives the answers the
  // memory gives.
  lemma {:induction false} TableAnswersLikeMemory(ops: seq<Op>)
    requires ServiceOps(ops)
    ensures Simulates(SqlRun(ops).0, MemRun(ops).0)
    ensures SqlRun(ops).1 == MemRun(ops).1
  {
    if ops != [] {
      var n := |ops| - 1;
      forall k | 0 <= k < n
        ensures ops[..n][k] == ops[k] && ops[..n][..k] == ops[..k]
      {
      }
      TableAnswersLikeMemory(ops[..n]);
      StepSimulates(SqlRun(ops[..n]).0, MemRun(ops[..n]).0, ops[n]);
    }
  }

  // ---------- the engine issues only such operations ----------

  // The repository calls of a run of the gateway.
  function OpsOf(c: Gateway.Config, labels: seq<Gateway.Label>): seq<Op> {
    if labels == [] then []
    else
      var n := |labels| - 1;
      OpsOf(c, labels[..n]) + OpsOfLabel(c, Gateway.Run(c, labels[..n]), labels[n])
  }

  function OpsOfLabel(c: Gateway.Config, s: Gateway.State, l: Gateway.Label): seq<Op> {
    if Gateway.Allocates(s, l) then [NextIndex(s.requests[l.request].p.merchantId)]
    else
      match Gateway.ActOf(c, s, l)
      case None => []
      case Some(act) => OpsOfAct(s.engine, act)
  }

  function OpsOfAct(s: Interleaving.State, a: Interleaving.Act): seq<Op> {
    match a
    case New(terms) => [Create(NewRecord(terms))]
    case Read(w, id) => [Get(id)]
    case List(_) => [ListOpen]
    case Observe(_, _, _) => []
    case Tell(_) => []
    case Write(w, saved) => if Interleaving.IsWriting(s, w) && saved then [Update(s.workers[w].copy)] else []
  }

  // Every adapter reports amounts in the asset of the invoice it is asked about, and the
  // simulator is paid in its own.
  ghost predicate ReportsInAsset(c: Gateway.Config, labels: seq<Gateway.Label>) {
    forall n :: 0 <= n < |labels| ==> ReportInAsset(Gateway.Run(c, labels[..n]), labels[n])
  }

  predicate ReportInAsset(s: Gateway.State, l: Gateway.Label) {
    && (l.Pay? ==> l.amount.asset == TBTC)
    && (l.Engine? && l.act.Observe? && l.act.worker in s.engine.workers ==>
          var copy := s.engine.workers[l.act.worker].copy;
          copy.terms.chain == Gateway.MOCK || l.act.obs.received.asset == copy.terms.asset)
  }

  ghost predicate AllOneAsset(s: Interleaving.State) {
    && (forall id :: id in s.store ==> OneAsset(s.store[id]))
    && (forall w :: w in s.workers ==> OneAsset(s.workers[w].copy))
  }

  ghost predicate InTBTC(ledger: map<string, Entry>) {
    forall address :: address in ledger ==> ledger[address].received.asset == TBTC
  }

  lemma ActKeepsOneAsset(s: Interleaving.State, a: Interleaving.Act)
    requires AllOneAsset(s)
    requires a.New? ==> TermsOk(a.terms)
    requires a.Observe? && a.worker in s.workers ==> a.obs.received.asset == s.workers[a.worker].copy.terms.asset
    ensures AllOneAsset(Interleaving.Step(s, a))
  {
    hide Decide;
  }

  lemma ReportedInAsset(c: Gateway.Config, labels: seq<Gateway.Label>, l: Gateway.Label)
    requires Gateway.Proper(c, labels)
    requires var s := Gateway.Run(c, labels);
             ReportInAsset(s, l) && InTBTC(s.ledger) && l.Engine? && l.act.Observe? && l.act.worker in s.engine.workers
    ensures var s := Gateway.Run(c, labels);
            Gateway.Reported(s, l.act.worker, l.act.obs).received.asset
              == s.engine.workers[l.act.worker].copy.terms.asset
  {
    hide Gateway.Run;
    Gateway.GatewayIsGenuine(c, labels);
    var worker := Gateway.Run(c, labels).engine.workers[l.act.worker];
    assert Interleaving.WorkerGenuine(
        worker, Gateway.Run(c, labels).engine.store, Interleaving.TermsIn(Gateway.Acts(c, labels)));
    assert Gateway.Created(c, worker.copy.terms);
  }

  lemma InsertIsSound(c: Gateway.Config, labels: seq<Gateway.Label>, l: Gateway.Label, terms: Terms)
    requires Gateway.Proper(c, labels + [l]) && Gateway.Inserts(c, Gateway.Run(c, labels), l, terms)
    ensures TermsOk(terms) && terms.id !in Gateway.Run(c, labels).engine.store
  {
    hide Gateway.Run, Gateway.ActOf, TermsOk;
    var acts := Gateway.Acts(c, labels);
    assert (labels + [l])[..|labels|] == labels;
    assert Gateway.Acts(c, labels + [l]) == acts + [Interleaving.New(terms)];
    Gateway.ActsAreProper(c, labels + [l]);
    assert (acts + [Interleaving.New(terms)])[|acts|] == Interleaving.New(terms);
    Interleaving.NewIsUnused(acts, terms);
    Gateway.EngineRuns(c, labels);
  }

  lemma Prefix(c: Gateway.Config, labels: seq<Gateway.Label>, n: nat)
    requires n <= |labels| && Gateway.Proper(c, labels) && ReportsInAsset(c, labels)
    ensures Gateway.Proper(c, labels[..n]) && ReportsInAsset(c, labels[..n])
  {
    forall k | 0 <= k < n
      ensures labels[..n][k] == labels[k] && labels[..n][..k] == labels[..k]
    {
    }
  }

  lemma {:induction false} GatewayKeepsOneAsset(c: Gateway.Config, labels: seq<Gateway.Label>)
    requires Gateway.Proper(c, labels) && ReportsInAsset(c, labels)
    ensures AllOneAsset(Gateway.Run(c, labels).engine) && InTBTC(Gateway.Run(c, labels).ledger)
  {
    if labels != [] {
      hide AllOneAsset, Gateway.Step, Gateway.EngineStep, Gateway.Proper, ReportInAsset, Interleaving.Step;
      var n := |labels| - 1;
      var s, l := Gateway.Run(c, labels[..n]), labels[n];
      assert labels == labels[..n] + [l];
      Prefix(c, labels, n);
      GatewayKeepsOneAsset(c, labels[..n]);
      LedgerStep(c, s, l);
      Gateway.EngineSteps(c, s, l);
      EngineKeepsOneAsset(c, labels[..n], l);
    } else {
      assert AllOneAsset(Interleaving.EMPTY);
    }
  }

  lemma LedgerStep(c: Gateway.Config, s: Gateway.State, l: Gateway.Label)
    requires InTBTC(s.ledger) && ReportInAsset(s, l)
    ensures InTBTC(Gateway.Step(c, s, l).ledger)
  {
  }

  lemma EngineKeepsOneAsset(c: Gateway.Config, labels: seq<Gateway.Label>, l: Gateway.Label)
    requires Gateway.Proper(c, labels + [l]) && Gateway.Proper(c, labels)
    requires var s := Gateway.Run(c, labels);
             AllOneAsset(s.engine) && InTBTC(s.ledger) && ReportInAsset(s, l)
    ensures AllOneAsset(Gateway.EngineStep(c, Gateway.Run(c, labels), l))
  {
    hide AllOneAsset, Gateway.Run, Gateway.InsertedTerms, Gateway.Reported, Interleaving.Step, TermsOk, ReportInAsset;
    var s := Gateway.Run(c, labels);
    var a := Gateway.ActOf(c, s, l);
    if a.Some? {
      if a.value.New? {
        InsertIsSound(c, labels, l, a.value.terms);
      } else if a.value.Observe? && a.value.worker in s.engine.workers {
        ReportedInAsset(c, labels, l);
      }
      ActKeepsOneAsset(s.engine, a.value);
    }
  }

  // The memory a run of the gateway leaves in its repository.
  function MemoryOf(s: Gateway.State): Memory { Memory(s.engine.store, s.counters) }

  // Each step of the gateway calls the repository as the service may, and what the calls do
  // to the memory is what the step does.
  lemma LabelIsServed(c: Gateway.Config, labels: seq<Gateway.Label>, l: Gateway.Label)
    requires Gateway.Proper(c, labels + [l]) && Gateway.Proper(c, labels)
    requires AllOneAsset(Gateway.Run(c, labels).engine)
    ensures Served(c, Gateway.Run(c, labels), l)
  {
    hide Gateway.Run, Gateway.InsertedTerms, TermsOk, AllOneAsset, Gateway.Proper;
    var s := Gateway.Run(c, labels);
    var a := Gateway.ActOf(c, s, l);
    if a.Some? {
      if a.value.New? {
        InsertIsSound(c, labels, l, a.value.terms);
        NewIsOneAsset(a.value.terms);
      } else if a.value.Write? && Interleaving.IsWriting(s.engine, a.value.worker) {
        WriteIsServed(c, labels, a.value.worker);
      }
    }
  }

  ghost predicate Served(c: Gateway.Config, s: Gateway.State, l: Gateway.Label) {
    var ops, t := OpsOfLabel(c, s, l), Gateway.Step(c, s, l);
    && |ops| <= 1
    && (ops == [] ==> MemoryOf(t) == MemoryOf(s))
    && (ops != [] ==> ServiceOp(MemoryOf(s), ops[0]) && MemoryOf(t) == MemStep(MemoryOf(s), ops[0]).0)
  }

  lemma NewIsOneAsset(terms: Terms)
    requires TermsOk(terms)
    ensures OneAsset(NewRecord(terms))
  {
  }

  lemma WriteIsServed(c: Gateway.Config, labels: seq<Gateway.Label>, w: nat)
    requires Gateway.Proper(c, labels) && AllOneAsset(Gateway.Run(c, labels).engine)
    requires Interleaving.IsWriting(Gateway.Run(c, labels).engine, w)
    ensures ServiceOp(MemoryOf(Gateway.Run(c, labels)), Update(Gateway.Run(c, labels).engine.workers[w].copy))
  {
    hide Gateway.Run, Interleaving.Run;
    Gateway.EngineRuns(c, labels);
    Gateway.ActsAreProper(c, labels);
    Interleaving.WritesKeepTerms(Gateway.Acts(c, labels), w);
  }

  lemma OneMoreLabel(c: Gateway.Config, labels: seq<Gateway.Label>, l: Gateway.Label)
    requires ServiceOps(OpsOf(c, labels)) && MemRun(OpsOf(c, labels)).0 == MemoryOf(Gateway.Run(c, labels))
    requires Served(c, Gateway.Run(c, labels), l)
    ensures ServiceOps(OpsOf(c, labels + [l]))
    ensures MemRun(OpsOf(c, labels + [l])).0 == MemoryOf(Gateway.Run(c, labels + [l]))
  {
    hide OpsOf, OpsOfLabel, Gateway.Run, Gateway.Step, MemStep, MemRun, ServiceOp, ServiceOps, MemoryOf;
    OpsSnoc(c, labels, l);
    Gateway.RunSnoc(c, labels, l);
    var ops, more := OpsOf(c, labels), OpsOfLabel(c, Gateway.Run(c, labels), l);
    if more == [] {
      assert ops + more == ops;
    } else {
      assert more == [more[0]];
      OneMoreOp(ops, more[0]);
    }
  }

  lemma {:induction false} LabelsAreServed(c: Gateway.Config, labels: seq<Gateway.Label>)
    requires Gateway.Proper(c, labels) && ReportsInAsset(c, labels)
    ensures ServiceOps(OpsOf(c, labels))
    ensures MemRun(OpsOf(c, labels)).0 == MemoryOf(Gateway.Run(c, labels))
  {
    if labels == [] {
      assert MemRun([]).0 == MemoryOf(Gateway.Initial(c));
    } else {
      hide OpsOf, OpsOfLabel, Gateway.Run, MemStep, MemRun, Gateway.Proper, ServiceOps, AllOneAsset, ReportsInAsset,
           Served, MemoryOf;
      var before, l := labels[..|labels| - 1], labels[|labels| - 1];
      assert labels == before + [l];
      Prefix(c, labels, |before|);
      LabelsAreServed(c, before);
      GatewayKeepsOneAsset(c, before);
      LabelIsServed(c, before, l);
      OneMoreLabel(c, before, l);
    }
  }

  // Under every interleaving, the gateway's repository calls are ones on which the table
  // answers like the memory, and the memory they leave is the run's store and counters: so
  // the gateway cannot tell which repository it runs on.
  lemma EngineRunsOnEither(c: Gateway.Config, labels: seq<Gateway.Label>)
    requires Gateway.Proper(c, labels) && ReportsInAsset(c, labels)
    ensures ServiceOps(OpsOf(c, labels))
    ensures MemRun(OpsOf(c, labels)).0 == MemoryOf(Gateway.Run(c, labels))
    ensures SqlRun(OpsOf(c, labels)).1 == MemRun(OpsOf(c, labels)).1
  {
    LabelsAreServed(c, labels);
    TableAnswersLikeMemory(OpsOf(c, labels));
  }

  lemma OpsSnoc(c: Gateway.Config, labels: seq<Gateway.Label>, l: Gateway.Label)
    ensures OpsOf(c, labels + [l]) == OpsOf(c, labels) + OpsOfLabel(c, Gateway.Run(c, labels), l)
  {
    assert (labels + [l])[..|labels|] == labels;
  }

  lemma OneMoreOp(ops: seq<Op>, op: Op)
    requires ServiceOps(ops) && ServiceOp(MemRun(ops).0, op)
    ensures ServiceOps(ops + [op])
    ensures MemRun(ops + [op]).0 == MemStep(MemRun(ops).0, op).0
  {
    var all := ops + [op];
    assert all[..|ops|] == ops;
    forall n | 0 <= n < |all|
      ensures ServiceOp(MemRun(all[..n]).0, all[n])
    {
      assert all[..n] == ops[..n];
    }
  }

  // ---------- the table in place ----------

  datatype SqlError = NoRows | BadRow

  ghost function Values(invs: seq<Invoice>): set<Record>
    reads invs
  {
    set inv | inv in invs :: inv.Value()
  }

  lemma ValuesGrow(invs: seq<Invoice>, inv: Invoice)
    ensures Values(invs + [inv]) == Values(invs) + {inv.Value()}
  {
  }

  lemma DecodedGrows(rows: set<Row>, row: Row)
    requires Decode(row).Some?
    ensures Decoded(rows + {row}) == Decoded(rows) + {Decode(row).value}
  {
  }

  lemma SomeRowFails(rows: map<string, Row>, row: Row)
    requires row in OpenRows(rows) && Decode(row).None?
    ensures ListAnswer(rows) == Fault
  {
  }

  lemma EveryRowDecodes(rows: map<string, Row>)
    requires forall row :: row in OpenRows(rows) ==> Decode(row).Some?
    ensures ListAnswer(rows) == Open(Decoded(OpenRows(rows)))
  {
  }

  class SqliteRepo {
    var rows: map<string, Row>
    var next: map<string, int>

    constructor ()
      ensures State() == Table(map[], map[])
    {
      rows, next := map[], map[];
    }

    ghost function State(): Table
      reads this
    {
      Table(rows, next)
    }

    method Create(inv: Invoice) returns (ok: bool)
      modifies this`rows
      ensures State() == SqlStep(old(State()), Op.Create(inv.Value())).0
      ensures ok <==> SqlStep(old(State()), Op.Create(inv.Value())).1 == Done
    {
      ok := inv.terms.id !in rows;
      if ok {
        rows := rows[inv.terms.id := Encode(inv.Value())];
      }
    }

    method Get(id: string) returns (r: Result<Invoice, SqlError>)
      ensures match SqlStep(State(), Op.Get(id)).1
              case Found(v) => r.Success? && fresh(r.value) && r.value.Value() == v
              case Missing => r == Failure(NoRows)
              case _ => r == Failure(BadRow)
    {
      if id !in rows {
        return Failure(NoRows);
      }
      var v := Decode(rows[id]);
      if v.None? {
        return Failure(BadRow);
      }
      var inv := new Invoice(v.value);
      r := Success(inv);
    }

    method Update(inv: Invoice) returns (found: bool)
      modifies this`rows
      ensures State() == SqlStep(old(State()), Op.Update(inv.Value())).0
      ensures found <==> SqlStep(old(State()), Op.Update(inv.Value())).1 == Done
    {
      found := inv.terms.id in rows;
      if found {
        rows := rows[inv.terms.id := SetColumns(rows[inv.terms.id], inv.Value())];
      }
    }

    // The rows come in the order of their text timestamps; here in any order.
    method ListOpen() returns (r: Result<seq<Invoice>, SqlError>)
      ensures match SqlStep(State(), Op.ListOpen).1
              case Open(rs) => r.Success? && fresh(r.value) && Values(r.value) == rs && |r.value| == |OpenRows(rows)|
              case _ => r == Failure(BadRow)
    {
      hide Decode, Encode, OpenRow, OpenRows, ListAnswer;
      var pending := OpenRows(rows);
      var out: seq<Invoice> := [];
      ghost var done: set<Row> := {};
      while pending != {}
        invariant pending + done == OpenRows(rows) && pending !! done
        invariant fresh(out) && |out| == |done|
        invariant forall row :: row in done ==> Decode(row).Some?
        invariant Values(out) == Decoded(done)
        decreases pending
      {
        var row :| row in pending;
        pending := pending - {row};
        var v := Decode(row);
        if v.None? {
          SomeRowFails(rows, row);
          return Failure(BadRow);
        }
        var inv := new Invoice(v.value);
        ValuesGrow(out, inv);
        DecodedGrows(done, row);
        out := out + [inv];
        done := done + {row};
      }
      EveryRowDecodes(rows);
      r := Success(out);
    }

    method NextDerivationIndex(merchantId: string) returns (index: nat)
      modifies this`next
      ensures State() == SqlStep(old(State()), Op.NextIndex(merchantId)).0
      ensures Index(index) == SqlStep(old(State()), Op.NextIndex(merchantId)).1
    {
      next := next[merchantId := if merchantId in next then next[merchantId] + 1 else 1];
      index := (next[merchantId] - 1) % UINT32;
    }
  }
}
