// The gateway in one run: creations with their price lookups and index allocations, syncs
// interleaved at will over any number of chains, and the simulated chain beside them.
module Gateway {
  import opened Wrappers
  import opened Money
  import opened Chain
  import opened Invoices
  import opened Lifecycle
  import opened Repository
  import opened Services
  import opened Sandbox
  import Bitcoin
  import Interleaving
  import Rates
  import Runs

  const MOCK := "mock"
  const MAINNET := "bitcoin"
  const TESTNET := "bitcoin-testnet"

  predicate IsBitcoin(chain: string) { chain == MAINNET || chain == TESTNET }

  // The confirmations configured for the two bitcoin networks if they are switched on, and
  // the address each derives from a wallet, if it can; the confirmations configured for the
  // sandbox if it is switched on; the adapters of any other chains; the payment window; and
  // the TTL of the price cache if there is an oracle.
  datatype Config = Config(
    bitcoin: Option<int>, address: (string, string, nat) -> Option<string>, sandbox: Option<int>,
    others: string -> Option<Services.Adapter>, expiry: int, ttl: Option<int>)

  function SandboxAdapter(configured: int): Services.Adapter {
    Services.Adapter(TBTC, RequiredConfs(configured),
                     (wallet: string, index: nat, amount: Amount) => Some(DeriveReceiveTarget(index, amount)),
                     (target: ReceiveTarget) => PaymentURI("sandbox", target.address, target.exactAmount))
  }

  function BitcoinAdapter(chain: string, configured: int, address: (string, string, nat) -> Option<string>)
    : Services.Adapter
  {
    Services.Adapter(if chain == MAINNET then BTC else TBTC,
                     Bitcoin.RequiredConfirmations(chain == MAINNET, configured),
                     (wallet: string, index: nat, amount: Amount) =>
                       (match address(chain, wallet, index)
                        case None => None
                        case Some(a) => Some(ReceiveTarget(a, amount, AddressPerInvoice, index))),
                     (target: ReceiveTarget) => PaymentURI("bitcoin", target.address, target.exactAmount))
  }

  function Registry(c: Config, chain: string): Option<Services.Adapter> {
    if chain == MOCK then if c.sandbox.Some? then Some(SandboxAdapter(c.sandbox.value)) else None
    else if IsBitcoin(chain) then
      if c.bitcoin.Some? then Some(BitcoinAdapter(chain, c.bitcoin.value, c.address)) else None
    else c.others(chain)
  }

  // A creation on its way: with its amount resolved, then with its index.
  datatype Request =
    | Priced(p: CreateParams, adapter: Services.Adapter, resolved: (Amount, string))
    | Indexed(p: CreateParams, adapter: Services.Adapter, resolved: (Amount, string), index: nat)

  datatype State = State(
    engine: Interleaving.State, prices: Prices, counters: map<string, nat>, requests: map<nat, Request>,
    ledger: map<string, Entry>)

  // Each step of a creation touches one shared thing: the price cache, the merchant's
  // counter, the store. One that goes no further has failed there. A payment is simulated;
  // the engine acts on its own, but what it observes of a sandbox invoice is the ledger.
  datatype Label =
    | Resolve(request: nat, p: CreateParams, quote: Quote)
    | Allocate(request: nat)
    | Insert(request: nat, id: string, now: int)
    | Pay(address: string, amount: Amount, confirmations: int, txHash: string)
    | Engine(act: Interleaving.Act)

  function Initial(c: Config): State {
    State(Interleaving.EMPTY, if c.ttl.Some? then Enabled(c.ttl.value, map[]) else Disabled, map[], map[], map[])
  }

  function Counter(s: State, merchantId: string): nat {
    if merchantId in s.counters then s.counters[merchantId] else 0
  }

  function Reported(s: State, worker: nat, elsewhere: Observation): Observation {
    if worker in s.engine.workers && s.engine.workers[worker].copy.terms.chain == MOCK
    then CheckLedger(s.ledger, s.engine.workers[worker].copy.terms.receiveAddress)
    else elsewhere
  }

  function InsertedTerms(c: Config, request: Request, id: string, now: int): Option<Terms>
    requires request.Indexed?
  {
    match request.adapter.derive(request.p.wallet, request.index, request.resolved.0)
    case None => None
    case Some(target) => Some(TermsFor(request.p, request.adapter, request.resolved, target, id, now, c.expiry))
  }

  // What the engine does at a step.
  function ActOf(c: Config, s: State, l: Label): Option<Interleaving.Act> {
    match l
    case Insert(r, id, now) =>
      if r !in s.requests || !s.requests[r].Indexed? then None
      else
        (match InsertedTerms(c, s.requests[r], id, now)
         case None => None
         case Some(terms) => Some(Interleaving.New(terms)))
    case Engine(New(_)) => None
    case Engine(Observe(w, elsewhere, now)) => Some(Interleaving.Observe(w, Reported(s, w, elsewhere), now))
    case Engine(act) => Some(act)
    case _ => None
  }

  function EngineStep(c: Config, s: State, l: Label): Interleaving.State {
    match ActOf(c, s, l)
    case None => s.engine
    case Some(act) => Interleaving.Step(s.engine, act)
  }

  predicate Allocates(s: State, l: Label) {
    l.Allocate? && l.request in s.requests && s.requests[l.request].Priced?
  }

  function Step(c: Config, s: State, l: Label): State {
    match l
    case Resolve(r, p, quote) =>
      var adapter := Registry(c, p.chain);
      if p.merchantId == "" || adapter.None? then s
      else
        var resolved := ResolveAmount(adapter.value.asset, p, s.prices, quote);
        var after := s.(prices := PricesAfter(adapter.value.asset, p, s.prices, quote));
        if resolved.Failure? then after
        else after.(requests := s.requests[r := Priced(p, adapter.value, resolved.value)])
    case Allocate(r) =>
      if !Allocates(s, l) then s
      else
        var Priced(p, adapter, resolved) := s.requests[r];
        var index := Counter(s, p.merchantId);
        s.(counters := s.counters[p.merchantId := NextCounter(index)],
           requests := s.requests[r := Indexed(p, adapter, resolved, index)])
    case Insert(r, _, _) => s.(engine := EngineStep(c, s, l), requests := s.requests - {r})
    case Pay(address, amount, confirmations, txHash) =>
      s.(ledger := s.ledger[address := Entry(amount, confirmations, txHash)])
    case Engine(_) => s.(engine := EngineStep(c, s, l))
  }

  function Run(c: Config, labels: seq<Label>): State {
    if labels == [] then Initial(c) else Step(c, Run(c, labels[..|labels| - 1]), labels[|labels| - 1])
  }

  // Invoice identifiers are never reused.
  ghost predicate Proper(c: Config, labels: seq<Label>) {
    && c.expiry > 0
    && forall i, j :: 0 <= i < j < |labels| && labels[i].Insert? && labels[j].Insert? ==> labels[i].id != labels[j].id
  }

  lemma RunSnoc(c: Config, labels: seq<Label>, l: Label)
    ensures Run(c, labels + [l]) == Step(c, Run(c, labels), l)
  {
    assert (labels + [l])[..|labels|] == labels;
  }

  // ---------- creation ----------

  function Creation(r: nat, p: CreateParams, quote: Quote, id: string, now: int): seq<Label> {
    [Resolve(r, p, quote), Allocate(r), Insert(r, id, now)]
  }

  // The three steps together are what Service.Create does when nothing fails.
  lemma CreationCreates(c: Config, labels: seq<Label>, r: nat, p: CreateParams, quote: Quote, id: string, now: int)
    requires p.merchantId != "" && Registry(c, p.chain).Some?
    requires ResolveAmount(Registry(c, p.chain).value.asset, p, Run(c, labels).prices, quote).Success?
    requires var amount := ResolveAmount(Registry(c, p.chain).value.asset, p, Run(c, labels).prices, quote).value.0;
             Registry(c, p.chain).value.derive(p.wallet, Counter(Run(c, labels), p.merchantId), amount).Some?
    ensures var s, t := Run(c, labels), Run(c, labels + Creation(r, p, quote, id, now));
            var adapter := Registry(c, p.chain).value;
            var resolved := ResolveAmount(adapter.asset, p, s.prices, quote).value;
            var index := Counter(s, p.merchantId);
            var target := adapter.derive(p.wallet, index, resolved.0).value;
            var rate := if PricedInFiat(p) && quote.rateText != "" then quote.rateText else p.rate;
            var terms := Terms(id, p.merchantId, p.chain, adapter.asset, resolved.0, p.fiatCurrency, p.fiatAmount, rate,
                               target.address, adapter.paymentURI(target), target.strategy, target.derivationIndex,
                               adapter.requiredConfs, now, now + c.expiry);
            && t.engine == s.engine.(store := s.engine.store[id := NewRecord(terms)])
            && t.prices == PricesAfter(adapter.asset, p, s.prices, quote)
            && t.counters == s.counters[p.merchantId := NextCounter(index)]
            && t.ledger == s.ledger
  {
    hide Run, ResolveAmount, PricesAfter, NextCounter, Registry, NewRecord;
    var s := Run(c, labels);
    var adapter := Registry(c, p.chain).value;
    var resolved := ResolveAmount(adapter.asset, p, s.prices, quote).value;
    RateOnlyInFiat(adapter.asset, p, s.prices, quote);
    var one := labels + [Resolve(r, p, quote)];
    RunSnoc(c, labels, Resolve(r, p, quote));
    assert Run(c, one).requests[r] == Priced(p, adapter, resolved) && Run(c, one).counters == s.counters;
    var two := one + [Allocate(r)];
    RunSnoc(c, one, Allocate(r));
    assert Run(c, two).requests[r] == Indexed(p, adapter, resolved, Counter(s, p.merchantId));
    RunSnoc(c, two, Insert(r, id, now));
    assert labels + Creation(r, p, quote, id, now) == two + [Insert(r, id, now)];
  }

  // The chains a merchant may name: the sandbox and the bitcoin networks when switched on,
  // and whatever else is registered, under its own adapter.
  lemma RegisteredIff(c: Config, chain: string)
    ensures Registry(c, chain).Some? <==>
              || (chain == MOCK && c.sandbox.Some?)
              || (IsBitcoin(chain) && c.bitcoin.Some?)
              || (chain !in {MOCK, MAINNET, TESTNET} && c.others(chain).Some?)
    ensures chain !in {MOCK, MAINNET, TESTNET} ==> Registry(c, chain) == c.others(chain)
  {
  }

  // So a sound bitcoin order whose address can be derived is stored, at that address.
  lemma BitcoinOrderIsStored(c: Config, labels: seq<Label>, r: nat, p: CreateParams, quote: Quote, id: string, now: int)
    requires p.merchantId != "" && IsBitcoin(p.chain) && c.bitcoin.Some?
    requires p.amount.asset == (if p.chain == MAINNET then BTC else TBTC) && p.amount.units >= 1
    requires c.address(p.chain, p.wallet, Counter(Run(c, labels), p.merchantId)).Some?
    ensures var s, t := Run(c, labels), Run(c, labels + Creation(r, p, quote, id, now));
            var index := Counter(s, p.merchantId);
            && t.engine.store.Keys == s.engine.store.Keys + {id}
            && t.engine.store[id].terms.amount == p.amount && t.engine.store[id].terms.derivationIndex == index
            && t.engine.store[id].terms.receiveAddress == c.address(p.chain, p.wallet, index).value
  {
    hide Run, PaymentURI;
    CreationCreates(c, labels, r, p, quote, id, now);
  }

  // What the engine did in a run.
  function Acts(c: Config, labels: seq<Label>): seq<Interleaving.Act> {
    if labels == [] then []
    else
      var n := |labels| - 1;
      Acts(c, labels[..n]) + match ActOf(c, Run(c, labels[..n]), labels[n]) { case None => [] case Some(act) => [act] }
  }

  lemma {:induction false} EngineRuns(c: Config, labels: seq<Label>)
    ensures Run(c, labels).engine == Interleaving.Run(Acts(c, labels))
  {
    if labels != [] {
      hide Interleaving.Step, ActOf, ResolveAmount, PricesAfter;
      var n := |labels| - 1;
      EngineRuns(c, labels[..n]);
      EngineSteps(c, Run(c, labels[..n]), labels[n]);
      var acts := Acts(c, labels[..n]);
      match ActOf(c, Run(c, labels[..n]), labels[n]) {
        case None =>
          assert acts + [] == acts;
        case Some(act) =>
          assert (acts + [act])[..|acts|] == acts;
      }
    }
  }

  lemma EngineSteps(c: Config, s: State, l: Label)
    ensures Step(c, s, l).engine == EngineStep(c, s, l)
  {
  }

  // ---------- what every created invoice satisfies ----------

  ghost predicate RequestOk(c: Config, request: Request) {
    && request.p.merchantId != ""
    && Registry(c, request.p.chain) == Some(request.adapter)
    && request.resolved.0.asset == request.adapter.asset && request.resolved.0.units >= 1
  }

  ghost predicate RequestsOk(c: Config, s: State) {
    forall r :: r in s.requests ==> RequestOk(c, s.requests[r])
  }

  // What creation guarantees of the terms, and what the sandbox and bitcoin add.
  ghost predicate Created(c: Config, t: Terms) {
    && TermsOk(t) && t.expiresAt == t.createdAt + c.expiry
    && (t.chain == MOCK ==>
          && c.sandbox.Some? && t.requiredConfs == RequiredConfs(c.sandbox.value) && t.asset == TBTC
          && t.strategy == AddressPerInvoice && t.receiveAddress == Address(t.derivationIndex)
          && t.paymentURI == PaymentURI("sandbox", t.receiveAddress, t.amount))
    && (IsBitcoin(t.chain) ==>
          && c.bitcoin.Some? && t.requiredConfs == Bitcoin.RequiredConfirmations(t.chain == MAINNET, c.bitcoin.value)
          && t.asset == (if t.chain == MAINNET then BTC else TBTC)
          && t.strategy == AddressPerInvoice
          && (exists wallet :: c.address(t.chain, wallet, t.derivationIndex) == Some(t.receiveAddress))
          && t.paymentURI == PaymentURI("bitcoin", t.receiveAddress, t.amount))
  }

  lemma StepKeepsRequests(c: Config, s: State, l: Label)
    requires RequestsOk(c, s)
    ensures RequestsOk(c, Step(c, s, l))
  {
    hide EngineStep, PricesAfter, ResolveAmount, Registry;
    if l.Resolve? && Registry(c, l.p.chain).Some? {
      var asset := Registry(c, l.p.chain).value.asset;
      if ResolveAmount(asset, l.p, s.prices, l.quote).Success? {
        ResolvedAmountIsPositive(asset, l.p, s.prices, l.quote);
      }
    }
  }

  lemma {:induction false} RunKeepsRequests(c: Config, labels: seq<Label>)
    ensures RequestsOk(c, Run(c, labels))
  {
    if labels != [] {
      RunKeepsRequests(c, labels[..|labels| - 1]);
      StepKeepsRequests(c, Run(c, labels[..|labels| - 1]), labels[|labels| - 1]);
    }
  }

  ghost predicate Inserts(c: Config, s: State, l: Label, terms: Terms) {
    ActOf(c, s, l) == Some(Interleaving.New(terms))
  }

  lemma InsertedIsCreated(c: Config, s: State, l: Label, terms: Terms)
    requires c.expiry > 0 && RequestsOk(c, s) && Inserts(c, s, l, terms)
    ensures l.Insert? && l.id == terms.id && Created(c, terms)
    ensures terms.chain == MOCK || IsBitcoin(terms.chain) ==>
              terms.derivationIndex == s.requests[l.request].index
    ensures terms.createdAt == l.now && terms.expiresAt == l.now + c.expiry
    ensures var p := s.requests[l.request].p;
            && terms.merchantId == p.merchantId && terms.chain == p.chain
            && (IsBitcoin(terms.chain) ==>
                  c.address(terms.chain, p.wallet, terms.derivationIndex) == Some(terms.receiveAddress))
  {
    assert l.Insert?;
    assert RequestOk(c, s.requests[l.request]);
  }

  // Every creation in the engine's run is one insert's, under its identifier.
  lemma {:induction false} NewFromInsert(c: Config, labels: seq<Label>, terms: Terms) returns (j: nat)
    requires Interleaving.New(terms) in Acts(c, labels)
    ensures j < |labels| && Inserts(c, Run(c, labels[..j]), labels[j], terms)
  {
    var n := |labels| - 1;
    if Inserts(c, Run(c, labels[..n]), labels[n], terms) {
      j := n;
    } else {
      j := NewFromInsert(c, labels[..n], terms);
      assert labels[..n][..j] == labels[..j];
    }
  }

  lemma {:induction false} ActsAreProper(c: Config, labels: seq<Label>)
    requires Proper(c, labels)
    ensures Interleaving.ProperNews(Acts(c, labels))
  {
    if labels != [] {
      hide ActOf, Created;
      var n := |labels| - 1;
      assert Proper(c, labels[..n]);
      ActsAreProper(c, labels[..n]);
      var acts, s := Acts(c, labels[..n]), Run(c, labels[..n]);
      var a := ActOf(c, s, labels[n]);
      if a.Some? && a.value.New? {
        RunKeepsRequests(c, labels[..n]);
        InsertedIsCreated(c, s, labels[n], a.value.terms);
        TermsOfCreated(c, a.value.terms);
        forall i | 0 <= i < |acts| && acts[i].New?
          ensures acts[i].terms.id != a.value.terms.id
        {
          var j := NewFromInsert(c, labels[..n], acts[i].terms);
          RunKeepsRequests(c, labels[..n][..j]);
          InsertedIsCreated(c, Run(c, labels[..n][..j]), labels[..n][j], acts[i].terms);
          assert labels[..n][j] == labels[j];
        }
      }
    }
  }

  lemma TermsOfCreated(c: Config, t: Terms)
    requires Created(c, t)
    ensures TermsOk(t)
  {
  }

  // In every run, whatever the providers, the callers and the chains answer, every record
  // stored, held or told is sound, and its terms are those of an insert.
  lemma GatewayIsGenuine(c: Config, labels: seq<Label>)
    requires Proper(c, labels)
    ensures Interleaving.AllGenuine(Run(c, labels).engine, Interleaving.TermsIn(Acts(c, labels)))
    ensures forall t :: t in Interleaving.TermsIn(Acts(c, labels)) ==> Created(c, t)
  {
    hide Interleaving.AllGenuine, Created;
    ActsAreProper(c, labels);
    EngineRuns(c, labels);
    Interleaving.EveryRecordIsGenuine(Acts(c, labels));
    forall t | t in Interleaving.TermsIn(Acts(c, labels))
      ensures Created(c, t)
    {
      var j := NewFromInsert(c, labels, t);
      RunKeepsRequests(c, labels[..j]);
      InsertedIsCreated(c, Run(c, labels[..j]), labels[j], t);
    }
  }

  // So every stored invoice has the whole payment window, and asks for at least one smallest
  // unit of its chain's asset, however
  // it was priced, and a sandbox or bitcoin invoice's payment URI asks for it at its own
  // address (no address has a question mark in it).
  lemma EveryInvoiceAsksForMoney(c: Config, labels: seq<Label>, id: string)
    requires Proper(c, labels) && id in Run(c, labels).engine.store
    ensures var r := Run(c, labels).engine.store[id];
            && RecordOk(r) && r.terms.id == id && r.terms.expiresAt == r.terms.createdAt + c.expiry
            && r.terms.amount.units >= 1 && r.terms.amount.asset == r.terms.asset
            && (r.terms.chain == MOCK || (IsBitcoin(r.terms.chain) && '?' !in r.terms.receiveAddress) ==>
                  && URIAmount(r.terms.asset, r.terms.paymentURI) == Some(r.terms.amount)
                  && URIAddress(r.terms.paymentURI) == Some(r.terms.receiveAddress))
  {
    hide URIAmount, URIAddress, PaymentURI, Address, Run;
    GatewayIsGenuine(c, labels);
    var t := Run(c, labels).engine.store[id].terms;
    assert Created(c, t);
    if t.chain == MOCK {
      PlainAddress(t.derivationIndex);
      URICarriesAmount("sandbox", t.receiveAddress, t.amount);
    } else if IsBitcoin(t.chain) && '?' !in t.receiveAddress {
      URICarriesAmount("bitcoin", t.receiveAddress, t.amount);
    }
  }

  lemma PlainAddress(index: nat)
    ensures '?' !in Address(index)
  {
  }

  // A bitcoin invoice always requires a confirmation, so, with nothing assumed of it, one
  // that any run of the gateway stores or tells as settled was decided so from a look at it,
  // rightly exactly when at that look the history held its amount.
  lemma BitcoinSettledRightlyIff(c: Config, labels: seq<Label>, sightings: seq<Bitcoin.Sighting>, r: Record)
    returns (i: nat)
    requires Proper(c, labels)
    requires var s := Run(c, labels).engine;
             (exists id :: id in s.store && s.store[id] == r) || (exists e :: e in s.log && e.snapshot == r)
    requires r.status.IsSettled() && IsBitcoin(r.terms.chain)
    requires |sightings| == |Acts(c, labels)|
    requires forall i: nat :: Interleaving.LooksAt(Acts(c, labels), i, r.terms) ==>
               Bitcoin.Shown(sightings[i], r.terms.asset, r.terms.receiveAddress, Acts(c, labels)[i].obs)
    ensures Interleaving.DecidedBy(Acts(c, labels), i, r)
    ensures PaidDeep(r.terms, sightings[i])
       <==> Bitcoin.TotalPaid(sightings[i].history, r.terms.receiveAddress) >= r.terms.amount.units
  {
    hide Run, Acts, PaidDeep, Interleaving.Run;
    GatewayIsGenuine(c, labels);
    EngineRuns(c, labels);
    assert Created(c, r.terms);
    i := Interleaving.SettledRightlyIffPaid(Acts(c, labels), sightings, r);
  }

  // ---------- prices ----------

  // The call a step makes to the oracle.
  function CallOf(c: Config, s: State, l: Label): Option<Rates.PriceCall> {
    if l.Resolve? && l.p.merchantId != "" && Registry(c, l.p.chain).Some? && PricedInFiat(l.p) && s.prices.Enabled?
    then Some(CallFor(Registry(c, l.p.chain).value.asset, l.p, l.quote))
    else None
  }

  function PriceCalls(c: Config, labels: seq<Label>): seq<Rates.PriceCall> {
    if labels == [] then []
    else
      var n := |labels| - 1;
      PriceCalls(c, labels[..n]) + match CallOf(c, Run(c, labels[..n]), labels[n]) {
        case None => []
        case Some(call) => [call]
      }
  }

  // What the run has cached is what its own calls left.
  lemma {:induction false} PricesAreARun(c: Config, labels: seq<Label>)
    ensures Run(c, labels).prices
         == if c.ttl.Some? then Enabled(c.ttl.value, Rates.CacheRun(c.ttl.value, PriceCalls(c, labels))) else Disabled
  {
    if labels != [] {
      hide CallOf, Rates.CacheAfter, Step;
      var n := |labels| - 1;
      PricesAreARun(c, labels[..n]);
      var s, calls := Run(c, labels[..n]), PriceCalls(c, labels[..n]);
      PricesStep(c, s, labels[n]);
      match CallOf(c, s, labels[n]) {
        case None =>
          assert calls + [] == calls;
        case Some(call) =>
          assert (calls + [call])[..|calls|] == calls;
      }
    }
  }

  lemma PricesStep(c: Config, s: State, l: Label)
    ensures Step(c, s, l).prices == match CallOf(c, s, l) {
              case None => s.prices
              case Some(call) =>
                if s.prices.Enabled?
                then Enabled(s.prices.ttl, Rates.CacheAfter(s.prices.cache, s.prices.ttl, call)) else s.prices
            }
    ensures CallOf(c, s, l).Some? ==> s.prices.Enabled?
  {
    hide EngineStep, Registry, ResolveAmount, Rates.CacheAfter;
  }

  // Label h priced the request.
  ghost predicate PricedAt(c: Config, labels: seq<Label>, h: nat, request: Request) {
    && h < |labels| && labels[h].Resolve? && labels[h].p == request.p
    && Registry(c, request.p.chain) == Some(request.adapter)
    && ResolveAmount(request.adapter.asset, request.p, Run(c, labels[..h]).prices, labels[h].quote)
       == Success(request.resolved)
  }

  lemma {:induction false} WherePriced(c: Config, labels: seq<Label>, r: nat) returns (h: nat)
    requires r in Run(c, labels).requests
    ensures PricedAt(c, labels, h, Run(c, labels).requests[r])
  {
    hide EngineStep, ResolveAmount, PricesAfter, Registry, Counter;
    var n := |labels| - 1;
    var s := Run(c, labels[..n]);
    if labels[n].Resolve? && (r !in s.requests || Run(c, labels).requests[r] != s.requests[r]) {
      h := n;
    } else {
      h := WherePriced(c, labels[..n], r);
      assert labels[..n][..h] == labels[..h];
    }
  }

  lemma {:induction false} CallsGrow(c: Config, labels: seq<Label>, h: nat)
    requires h <= |labels|
    ensures PriceCalls(c, labels[..h]) <= PriceCalls(c, labels)
  {
    if h == |labels| {
      assert labels[..h] == labels;
    } else {
      hide CallOf, Run;
      var n := |labels| - 1;
      CallsGrow(c, labels[..n], h);
      assert labels[..n][..h] == labels[..h];
    }
  }

  // The units are the least count that covers the fiat amount at a price the oracle obtained
  // for the symbol and currency of the last call: by that call, or by an earlier one of the
  // run less than the TTL before.
  ghost predicate CoversFresh(calls: seq<Rates.PriceCall>, j: nat, ttl: int, price: Rates.Price, fiat: Rates.Rat,
                              units: int)
  {
    && j < |calls|
    && var call := calls[|calls| - 1];
    && Rates.Source(calls, j, call, price)
    && (j < |calls| - 1 ==> 0 <= call.lookupAt - calls[j].storedAt < ttl)
    && Rates.Covers(units, fiat, price, call.asset.decimals)
    && !Rates.Covers(units - 1, fiat, price, call.asset.decimals)
  }

  lemma ResolvedCoversFresh(c: Config, labels: seq<Label>, h: nat, request: Request)
    returns (j: nat, price: Rates.Price)
    requires PricedAt(c, labels, h, request) && request.p.amount.IsZero() && request.p.merchantId != ""
    requires Rates.MonotoneClock(PriceCalls(c, labels)) && Rates.PlainSymbols(PriceCalls(c, labels))
    ensures PricedInFiat(request.p) && c.ttl.Some? && labels[h].quote.fiat.Some?
    ensures var quote := labels[h].quote;
            var call := Rates.PriceCall(request.adapter.asset, request.p.fiatCurrency,
                                        quote.providers, quote.lookupAt, quote.storedAt);
            var calls := PriceCalls(c, labels[..h]) + [call];
            && calls <= PriceCalls(c, labels)
            && CoversFresh(calls, j, c.ttl.value, price, quote.fiat.value, request.resolved.0.units)
  {
    hide Rates.Covers, Rates.PriceResult, Rates.Obtained, Rates.Hit, Rates.CacheRun, Run, Registry;
    var quote, s := labels[h].quote, Run(c, labels[..h]);
    var call := Rates.PriceCall(request.adapter.asset, request.p.fiatCurrency,
                                quote.providers, quote.lookupAt, quote.storedAt);
    var calls := PriceCalls(c, labels[..h]);
    PricesAreARun(c, labels[..h]);
    ResolvedAmountIsPositive(request.adapter.asset, request.p, s.prices, quote);
    assert labels[..h + 1][..h] == labels[..h];
    assert CallOf(c, s, labels[h]) == Some(call);
    assert PriceCalls(c, labels[..h + 1]) == calls + [call];
    CallsGrow(c, labels, h + 1);
    CallsPrefix(calls + [call], PriceCalls(c, labels));
    j := Rates.EveryPriceIsFresh(c.ttl.value, calls, call);
    price := Rates.PriceResult(s.prices.cache, s.prices.ttl, call).value;
  }

  lemma CallsPrefix(calls: seq<Rates.PriceCall>, all: seq<Rates.PriceCall>)
    requires calls <= all && Rates.MonotoneClock(all) && Rates.PlainSymbols(all)
    ensures Rates.MonotoneClock(calls) && Rates.PlainSymbols(calls)
  {
  }

  // Label k inserted the invoice from the request that label h priced.
  ghost predicate OrderedBy(c: Config, labels: seq<Label>, h: nat, k: nat, t: Terms) {
    && k < |labels| && Inserts(c, Run(c, labels[..k]), labels[k], t)
    && labels[k].Insert? && labels[k].request in Run(c, labels[..k]).requests
    && PricedAt(c, labels[..k], h, Run(c, labels[..k]).requests[labels[k].request])
  }

  ghost predicate OrderedAt(c: Config, labels: seq<Label>, h: nat, t: Terms) {
    exists k: nat :: OrderedBy(c, labels, h, k, t)
  }

  lemma WhereOrdered(c: Config, labels: seq<Label>, id: string) returns (h: nat, request: Request)
    requires Proper(c, labels) && id in Run(c, labels).engine.store
    ensures var t := Run(c, labels).engine.store[id].terms;
            && OrderedAt(c, labels, h, t) && PricedAt(c, labels, h, request) && RequestOk(c, request)
            && t.amount == request.resolved.0 && t.asset == request.adapter.asset
            && t.rate == (if request.resolved.1 != "" then request.resolved.1 else request.p.rate)
            && var p := request.p;
            && (p.merchantId, p.chain, p.fiatCurrency, p.fiatAmount)
               == (t.merchantId, t.chain, t.fiatCurrency, t.fiatAmount)
            && (IsBitcoin(t.chain) ==> c.address(t.chain, p.wallet, t.derivationIndex) == Some(t.receiveAddress))
  {
    hide Run, ResolveAmount, Registry, ActOf, Created;
    GatewayIsGenuine(c, labels);
    var t := Run(c, labels).engine.store[id].terms;
    assert t in Interleaving.TermsIn(Acts(c, labels));
    var k := NewFromInsert(c, labels, t);
    var before := labels[..k];
    RunKeepsRequests(c, before);
    request := InsertedFrom(c, Run(c, before), labels[k], t);
    InsertedIsCreated(c, Run(c, before), labels[k], t);
    h := WherePriced(c, before, labels[k].request);
    assert before[..h] == labels[..h];
    assert OrderedBy(c, labels, h, k, t);
  }

  // In every run with a monotone clock and asset symbols without slashes, the amount of each
  // stored invoice was resolved by the step that priced it, for its merchant, chain,
  // currency and fiat amount: as it was given, or, priced in fiat, as the least that covers
  // a fresh price, at the rate locked then.
  lemma StoredAmountIsFresh(c: Config, labels: seq<Label>, id: string) returns (h: nat, j: nat, price: Rates.Price)
    requires Proper(c, labels) && id in Run(c, labels).engine.store
    requires Rates.MonotoneClock(PriceCalls(c, labels)) && Rates.PlainSymbols(PriceCalls(c, labels))
    ensures var t := Run(c, labels).engine.store[id].terms;
            && h < |labels| && labels[h].Resolve? && OrderedAt(c, labels, h, t)
            && var p, quote := labels[h].p, labels[h].quote;
            && (p.merchantId, p.chain, p.fiatCurrency, p.fiatAmount)
               == (t.merchantId, t.chain, t.fiatCurrency, t.fiatAmount)
            && (!p.amount.IsZero() ==> t.amount == p.amount && t.rate == p.rate)
            && (p.amount.IsZero() ==>
                  && c.ttl.Some? && quote.fiat.Some?
                  && t.rate == (if quote.rateText != "" then quote.rateText else p.rate)
                  && var call := Rates.PriceCall(t.asset, t.fiatCurrency,
                                                 quote.providers, quote.lookupAt, quote.storedAt);
                  && var calls := PriceCalls(c, labels[..h]) + [call];
                  && calls <= PriceCalls(c, labels)
                  && CoversFresh(calls, j, c.ttl.value, price, quote.fiat.value, t.amount.units))
  {
    hide Run, CoversFresh, PriceCalls, ResolveAmount, Registry, OrderedAt, Rates.MonotoneClock, Rates.PlainSymbols;
    var request: Request;
    h, request := WhereOrdered(c, labels, id);
    RateOnlyInFiat(request.adapter.asset, request.p, Run(c, labels[..h]).prices, labels[h].quote);
    if request.p.amount.IsZero() {
      j, price := ResolvedCoversFresh(c, labels, h, request);
    } else {
      j, price := 0, Rates.Ratio(1, 1);
      ResolvedAmountIsPositive(request.adapter.asset, request.p, Run(c, labels[..h]).prices, labels[h].quote);
    }
  }

  lemma InsertedFrom(c: Config, s: State, l: Label, t: Terms) returns (request: Request)
    requires Inserts(c, s, l, t)
    ensures l.Insert? && l.request in s.requests && request == s.requests[l.request]
    ensures t.amount == request.resolved.0 && t.asset == request.adapter.asset
    ensures t.rate == if request.resolved.1 != "" then request.resolved.1 else request.p.rate
    ensures var p := request.p;
            (p.merchantId, p.chain, p.fiatCurrency, p.fiatAmount)
              == (t.merchantId, t.chain, t.fiatCurrency, t.fiatAmount)
  {
    request := s.requests[l.request];
  }

  // ---------- the status of a sandbox invoice ----------

  // The status is what the stored fields imply; nothing was received at an unpaid address.
  ghost predicate Follows(r: Record, ledger: map<string, Entry>) {
    r.terms.chain == MOCK ==>
      r.status == ImpliedStatus(r) && (r.terms.receiveAddress !in ledger ==> r.received.units == 0)
  }

  ghost predicate AllFollow(s: Interleaving.State, ledger: map<string, Entry>) {
    && (forall id :: id in s.store ==> Follows(s.store[id], ledger))
    && (forall w :: w in s.workers ==> Follows(s.workers[w].copy, ledger))
    && (forall e :: e in s.log ==> Follows(e.snapshot, ledger))
  }

  lemma NewFollows(terms: Terms, ledger: map<string, Entry>)
    requires TermsOk(terms)
    ensures Follows(NewRecord(terms), ledger)
  {
  }

  lemma ActKeepsFollowing(s: Interleaving.State, a: Interleaving.Act, ledger: map<string, Entry>)
    requires AllFollow(s, ledger)
    requires a.New? ==> TermsOk(a.terms)
    requires a.Observe? && a.worker in s.workers && !s.workers[a.worker].copy.status.IsTerminal() ==>
               Follows(Advance(s.workers[a.worker].copy, a.obs, a.now), ledger)
    ensures AllFollow(Interleaving.Step(s, a), ledger)
  {
    hide Advance, Follows;
    if a.New? {
      NewFollows(a.terms, ledger);
    }
  }

  lemma PayKeepsFollowing(s: Interleaving.State, ledger: map<string, Entry>, address: string, e: Entry)
    requires AllFollow(s, ledger)
    ensures AllFollow(s, ledger[address := e])
  {
    hide ImpliedStatus;
  }

  lemma ObservingFollows(r: Record, ledger: map<string, Entry>, elsewhere: Observation, now: int)
    requires Follows(r, ledger) && !r.status.IsTerminal()
    ensures Follows(Advance(r, if r.terms.chain == MOCK then CheckLedger(ledger, r.terms.receiveAddress)
                               else elsewhere, now), ledger)
  {
    hide Advance, ImpliedStatus;
    var obs := if r.terms.chain == MOCK then CheckLedger(ledger, r.terms.receiveAddress) else elsewhere;
    AdvanceKeepsTerms(r, obs, now);
    StatusImpliedIff(r, obs, now);
  }

  lemma StepKeepsFollowing(c: Config, s: State, l: Label)
    requires AllFollow(s.engine, s.ledger) && RequestsOk(c, s) && c.expiry > 0
    ensures AllFollow(Step(c, s, l).engine, Step(c, s, l).ledger)
  {
    hide Advance, AllFollow, Follows, RequestsOk, Registry, ResolveAmount, PricesAfter, Created, CheckLedger,
         InsertedTerms, Interleaving.Step;
    if l.Pay? {
      PayKeepsFollowing(s.engine, s.ledger, l.address, Entry(l.amount, l.confirmations, l.txHash));
    }
    var a := ActOf(c, s, l);
    if a.Some? {
      if a.value.New? {
        InsertedIsCreated(c, s, l, a.value.terms);
        TermsOfCreated(c, a.value.terms);
      } else if a.value.Observe? && a.value.worker in s.engine.workers {
        var copy := s.engine.workers[a.value.worker].copy;
        if !copy.status.IsTerminal() {
          CopyFollows(s, a.value.worker);
          ObservingFollows(copy, s.ledger, l.act.obs, l.act.now);
        }
      }
      ActKeepsFollowing(s.engine, a.value, s.ledger);
    }
  }

  lemma CopyFollows(s: State, w: nat)
    requires AllFollow(s.engine, s.ledger) && w in s.engine.workers
    ensures Follows(s.engine.workers[w].copy, s.ledger)
  {
  }

  // On the simulated chain, where payments are replaced but never withdrawn, under every
  // interleaving of requests, watcher and payments the status of each record stored, held
  // or told is what its own amount, confirmations and time imply.
  lemma {:induction false} StatusFollowsFields(c: Config, labels: seq<Label>)
    requires c.expiry > 0
    ensures AllFollow(Run(c, labels).engine, Run(c, labels).ledger)
  {
    if labels != [] {
      hide Step, AllFollow, RequestsOk;
      var n := |labels| - 1;
      StatusFollowsFields(c, labels[..n]);
      RunKeepsRequests(c, labels[..n]);
      StepKeepsFollowing(c, Run(c, labels[..n]), labels[n]);
    } else {
      assert AllFollow(Interleaving.EMPTY, map[]);
    }
  }

  // ---------- derivation indexes and sandbox addresses ----------

  predicate AllocatesFor(s: State, l: Label, m: string) {
    Allocates(s, l) && s.requests[l.request].p.merchantId == m
  }

  // The indexes handed out for a merchant, whether or not an invoice came of them.
  function Allocations(c: Config, labels: seq<Label>, m: string): nat {
    if labels == [] then 0
    else
      var n := |labels| - 1;
      Allocations(c, labels[..n], m) + if AllocatesFor(Run(c, labels[..n]), labels[n], m) then 1 else 0
  }

  // The merchant's counter is that number, as a uint32.
  lemma {:induction false} CounterCounts(c: Config, labels: seq<Label>, m: string)
    ensures Counter(Run(c, labels), m) == Allocations(c, labels, m) % UINT32
  {
    hide EngineStep, ResolveAmount, PricesAfter, Registry;
    if labels != [] {
      CounterCounts(c, labels[..|labels| - 1], m);
      NextCounterCounts(Allocations(c, labels[..|labels| - 1], m));
    }
  }

  // Label i handed the request an index for the merchant, and it has held it ever since.
  ghost predicate Held(c: Config, labels: seq<Label>, i: nat, r: nat, m: string) {
    && i < |labels| && AllocatesFor(Run(c, labels[..i]), labels[i], m) && labels[i].request == r
    && forall k :: i < k <= |labels| ==> r in Run(c, labels[..k]).requests && Run(c, labels[..k]).requests[r].Indexed?
  }

  lemma HeldOn(c: Config, labels: seq<Label>, i: nat, r: nat, m: string)
    requires labels != [] && Held(c, labels[..|labels| - 1], i, r, m)
    requires r in Run(c, labels).requests && Run(c, labels).requests[r].Indexed?
    ensures Held(c, labels, i, r, m)
  {
    hide Run, AllocatesFor;
    var before := labels[..|labels| - 1];
    assert labels[..|labels|] == labels && before[..i] == labels[..i];
    forall k | i < k <= |labels|
      ensures r in Run(c, labels[..k]).requests && Run(c, labels[..k]).requests[r].Indexed?
    {
      if k < |labels| {
        assert before[..k] == labels[..k];
      }
    }
  }

  lemma {:induction false} WhereAllocated(c: Config, labels: seq<Label>, r: nat) returns (i: nat)
    requires r in Run(c, labels).requests && Run(c, labels).requests[r].Indexed?
    ensures var request := Run(c, labels).requests[r];
            && Held(c, labels, i, r, request.p.merchantId)
            && request.index == Allocations(c, labels[..i], request.p.merchantId) % UINT32
  {
    hide EngineStep, ResolveAmount, PricesAfter, Registry, Allocations;
    var n := |labels| - 1;
    var s := Run(c, labels[..n]);
    if Allocates(s, labels[n]) && labels[n].request == r {
      i := n;
      assert labels[..n + 1] == labels;
      CounterCounts(c, labels[..n], s.requests[r].p.merchantId);
    } else {
      i := WhereAllocated(c, labels[..n], r);
      assert labels[..n][..i] == labels[..i];
      HeldOn(c, labels, i, r, s.requests[r].p.merchantId);
    }
  }

  // Label i allocated the index with which label j inserted the invoice.
  ghost predicate CreatedAt(c: Config, labels: seq<Label>, i: nat, j: nat, t: Terms) {
    && j < |labels| && Inserts(c, Run(c, labels[..j]), labels[j], t)
    && labels[j].Insert? && Held(c, labels[..j], i, labels[j].request, t.merchantId)
  }

  ghost predicate AllocatedAt(c: Config, labels: seq<Label>, i: nat, t: Terms) {
    exists j: nat :: CreatedAt(c, labels, i, j, t)
  }

  // The index of a stored sandbox or bitcoin invoice is the number of allocations made for its
  // merchant before its own, as a uint32.
  lemma IndexIsAllocationNumber(c: Config, labels: seq<Label>, id: string) returns (i: nat)
    requires Proper(c, labels) && id in Run(c, labels).engine.store
    ensures var t := Run(c, labels).engine.store[id].terms;
            && i < |labels| && AllocatedAt(c, labels, i, t)
            && (t.chain == MOCK || IsBitcoin(t.chain) ==>
                  t.derivationIndex == Allocations(c, labels[..i], t.merchantId) % UINT32)
  {
    hide Allocations, Run, Inserts, ActOf;
    GatewayIsGenuine(c, labels);
    var t := Run(c, labels).engine.store[id].terms;
    assert t in Interleaving.TermsIn(Acts(c, labels));
    var j := NewFromInsert(c, labels, t);
    RunKeepsRequests(c, labels[..j]);
    InsertedIsCreated(c, Run(c, labels[..j]), labels[j], t);
    InsertTakesIndexed(c, Run(c, labels[..j]), labels[j], t);
    i := WhereAllocated(c, labels[..j], labels[j].request);
    assert labels[..j][..i] == labels[..i];
    assert CreatedAt(c, labels, i, j, t);
  }

  lemma InsertTakesIndexed(c: Config, s: State, l: Label, t: Terms)
    requires l.Insert? && Inserts(c, s, l, t)
    ensures l.request in s.requests && s.requests[l.request].Indexed?
  {
  }

  // Two sandbox invoices, of whatever merchants, share an address exactly when their indexes
  // are equal: when the numbers of their allocations, each counted within its own merchant,
  // differ by a multiple of 2^32.
  lemma SharedAddressIff(c: Config, labels: seq<Label>, a: string, b: string) returns (i: nat, k: nat)
    requires Proper(c, labels) && BothMock(c, labels, a, b)
    ensures var store := Run(c, labels).engine.store;
            var t, u := store[a].terms, store[b].terms;
            && i < |labels| && AllocatedAt(c, labels, i, t)
            && k < |labels| && AllocatedAt(c, labels, k, u)
            && (t.receiveAddress == u.receiveAddress <==> t.derivationIndex == u.derivationIndex)
            && (t.derivationIndex == u.derivationIndex <==>
                  (Allocations(c, labels[..i], t.merchantId) - Allocations(c, labels[..k], u.merchantId)) % UINT32 == 0)
  {
    hide Allocations, AllocatedAt, Run, Address;
    i := IndexIsAllocationNumber(c, labels, a);
    k := IndexIsAllocationNumber(c, labels, b);
    var t, u := Run(c, labels).engine.store[a].terms, Run(c, labels).engine.store[b].terms;
    AddressesAreDerived(c, labels, a);
    AddressesAreDerived(c, labels, b);
    if t.receiveAddress == u.receiveAddress {
      AddressInjective(t.derivationIndex, u.derivationIndex);
    }
    EqualRemaindersIff(Allocations(c, labels[..i], t.merchantId), Allocations(c, labels[..k], u.merchantId));
  }

  ghost predicate BothMock(c: Config, labels: seq<Label>, a: string, b: string) {
    var store := Run(c, labels).engine.store;
    a in store && b in store && store[a].terms.chain == store[b].terms.chain == MOCK
  }

  lemma AddressesAreDerived(c: Config, labels: seq<Label>, id: string)
    requires Proper(c, labels) && id in Run(c, labels).engine.store
    ensures var t := Run(c, labels).engine.store[id].terms;
            t.chain == MOCK ==> t.receiveAddress == Address(t.derivationIndex)
  {
    hide Run, Address;
    GatewayIsGenuine(c, labels);
    assert Created(c, Run(c, labels).engine.store[id].terms);
  }

  lemma EqualRemaindersIff(m: nat, n: nat)
    ensures m % UINT32 == n % UINT32 <==> (m - n) % UINT32 == 0
  {
    if m <= n {
      SameRemainderIff(m, n, UINT32);
    } else {
      SameRemainderIff(n, m, UINT32);
    }
    assert n - m == -(m - n);
  }

  // So a payment to one is seen for the other exactly then, and otherwise changes nothing
  // that is seen of it.
  lemma PaymentReaches(c: Config, labels: seq<Label>, a: string, b: string, e: Entry)
    requires Proper(c, labels) && BothMock(c, labels, a, b)
    ensures var s := Run(c, labels);
            var t, u := s.engine.store[a].terms, s.engine.store[b].terms;
            var paid := Run(c, labels + [Pay(t.receiveAddress, e.received, e.confirmations, e.txHash)]);
            && paid.engine == s.engine
            && CheckLedger(paid.ledger, u.receiveAddress) ==
                 if t.derivationIndex == u.derivationIndex
                 then Observation(true, e.received, e.confirmations, e.txHash)
                 else CheckLedger(s.ledger, u.receiveAddress)
  {
    hide Run, Allocations, AllocatedAt;
    var t := Run(c, labels).engine.store[a].terms;
    var _, _ := SharedAddressIff(c, labels, a, b);
    RunSnoc(c, labels, Pay(t.receiveAddress, e.received, e.confirmations, e.txHash));
  }

  // A tick's listing is the engine's, and the engine's other acts are its own too.
  lemma EngineActsAlone(c: Config, labels: seq<Label>, act: Interleaving.Act)
    requires !act.New? && !act.Observe?
    ensures var s, t := Run(c, labels), Run(c, labels + [Engine(act)]);
            t == s.(engine := Interleaving.Step(s.engine, act))
  {
    hide Interleaving.Step, Run;
    RunSnoc(c, labels, Engine(act));
  }

  // Other chains' adapters are taken at their word.
  lemma OthersReportThemselves(c: Config, labels: seq<Label>, w: nat, elsewhere: Observation, now: int)
    requires var s := Run(c, labels).engine; w in s.workers && s.workers[w].copy.terms.chain != MOCK
    ensures var s, t := Run(c, labels), Run(c, labels + [Engine(Interleaving.Observe(w, elsewhere, now))]);
            t == s.(engine := Interleaving.Step(s.engine, Interleaving.Observe(w, elsewhere, now)))
  {
    hide Interleaving.Step, Run;
    RunSnoc(c, labels, Engine(Interleaving.Observe(w, elsewhere, now)));
  }

  lemma InsertDrops(c: Config, labels: seq<Label>, j: nat)
    requires j < |labels| && labels[j].Insert?
    ensures labels[j].request !in Run(c, labels[..j + 1]).requests
  {
    assert labels[..j + 1][..j] == labels[..j];
  }

  lemma HeldUntil(c: Config, labels: seq<Label>, i: nat, j: nat, k: nat, r: nat, m: string)
    requires i < j < k <= |labels| && Held(c, labels[..k], i, r, m)
    ensures r in Run(c, labels[..j + 1]).requests
  {
    assert labels[..k][..j + 1] == labels[..j + 1];
  }

  // Two inserts do not use one allocation.
  lemma InsertedOnce(c: Config, labels: seq<Label>, i: nat, j: nat, k: nat, t: Terms, u: Terms)
    requires CreatedAt(c, labels, i, j, t) && CreatedAt(c, labels, i, k, u)
    ensures j >= k
  {
    hide Run, Inserts, AllocatesFor;
    assert labels[..j][i] == labels[i] == labels[..k][i];
    if j < k {
      HeldUntil(c, labels, i, j, k, labels[j].request, u.merchantId);
      InsertDrops(c, labels, j);
    }
  }

  // So no two invoices come of one.
  lemma AllocatedApart(c: Config, labels: seq<Label>, i: nat, t: Terms, u: Terms)
    requires AllocatedAt(c, labels, i, t) && AllocatedAt(c, labels, i, u)
    ensures t == u
  {
    hide Run, Allocations, Inserts, Held;
    var j: nat :| CreatedAt(c, labels, i, j, t);
    var k: nat :| CreatedAt(c, labels, i, k, u);
    InsertedOnce(c, labels, i, j, k, t, u);
    InsertedOnce(c, labels, i, k, j, u, t);
    OneInsert(c, Run(c, labels[..j]), labels[j], t, u);
  }

  lemma OneInsert(c: Config, s: State, l: Label, t: Terms, u: Terms)
    requires Inserts(c, s, l, t) && Inserts(c, s, l, u)
    ensures t == u
  {
  }

  lemma {:induction false} AllocationsGrow(c: Config, labels: seq<Label>, i: nat, m: string)
    requires i < |labels| && AllocatesFor(Run(c, labels[..i]), labels[i], m)
    ensures Allocations(c, labels[..i], m) < Allocations(c, labels, m)
  {
    hide AllocatesFor, Run;
    var n := |labels| - 1;
    if i < n {
      assert labels[..n][..i] == labels[..i];
      AllocationsGrow(c, labels[..n], i, m);
    }
  }

  lemma StoredUnderId(c: Config, labels: seq<Label>, id: string)
    requires Proper(c, labels) && id in Run(c, labels).engine.store
    ensures Run(c, labels).engine.store[id].terms.id == id && RecordOk(Run(c, labels).engine.store[id])
  {
    hide RecordOk;
    GatewayIsGenuine(c, labels);
  }

  // What the payment simulator does: get the invoice, pay its address, sync it.
  function Simulation(w: nat, id: string, address: string, e: Entry, elsewhere: Observation, now: int): seq<Label> {
    [Engine(Interleaving.Read(w, id)), Pay(address, e.received, e.confirmations, e.txHash),
     Engine(Interleaving.Observe(w, elsewhere, now)), Engine(Interleaving.Write(w, true)), Engine(Interleaving.Tell(w))]
  }

  // In every state of a run it stores the invoice advanced by that very payment, so paying
  // exactly the amount with enough confirmations settles it as paid, and tells of it.
  lemma SimulationAdvances(c: Config, labels: seq<Label>, w: nat, id: string, e: Entry, elsewhere: Observation,
                           now: int)
    requires Proper(c, labels) && id in Run(c, labels).engine.store && Interleaving.IsIdle(Run(c, labels).engine, w)
    requires Run(c, labels).engine.store[id].terms.chain == MOCK
    requires !Run(c, labels).engine.store[id].status.IsTerminal()
    ensures var s := Run(c, labels).engine;
            var r := s.store[id];
            var t := Run(c, labels + Simulation(w, id, r.terms.receiveAddress, e, elsewhere, now)).engine;
            var paid := Advance(r, Observation(true, e.received, e.confirmations, e.txHash), now);
            && t.store == s.store[id := paid]
            && t.log == s.log + (if paid.status != r.status then [Event(paid, r.status)] else [])
            && (e.received.units == r.terms.amount.units && e.confirmations >= r.terms.requiredConfs ==>
                  paid.status == Paid && t.log != s.log)
  {
    hide Run, Advance, Decide, Interleaving.Step, SyncCopy, RecordOk, Proper, CheckLedger;
    var s := Run(c, labels).engine;
    var r := s.store[id];
    var obs := Observation(true, e.received, e.confirmations, e.txHash);
    StoredUnderId(c, labels, id);
    PaidAmountSettles(r, obs, now);
    var held := ReadThenPay(c, labels, w, id, e);
    var acts := Simulation(w, id, r.terms.receiveAddress, e, elsewhere, now);
    SyncInRun(c, held, w, elsewhere, now);
    assert labels + acts == held + [acts[2], acts[3], acts[4]];
    SyncAppends(s.store, s.log, r, obs, now);
  }

  lemma PaidAmountSettles(r: Record, obs: Observation, now: int)
    requires RecordOk(r) && !r.status.IsTerminal()
    requires obs.seen
    ensures obs.received.units == r.terms.amount.units && obs.confirmations >= r.terms.requiredConfs ==>
              Advance(r, obs, now).status == Paid != r.status
  {
    hide Advance, Decide;
    AdvanceOk(r, obs, now);
    DecideMeaning(r.terms, obs, now);
  }

  lemma ReadThenPay(c: Config, labels: seq<Label>, w: nat, id: string, e: Entry) returns (held: seq<Label>)
    requires id in Run(c, labels).engine.store && Interleaving.IsIdle(Run(c, labels).engine, w)
    ensures var s := Run(c, labels);
            var r, t := s.engine.store[id], Run(c, held);
            && held == labels + [Engine(Interleaving.Read(w, id)),
                                 Pay(r.terms.receiveAddress, e.received, e.confirmations, e.txHash)]
            && w in t.engine.workers && t.engine.workers[w] == Interleaving.Holding(r)
            && t.engine.store == s.engine.store && t.engine.log == s.engine.log
            && CheckLedger(t.ledger, r.terms.receiveAddress)
               == Observation(true, e.received, e.confirmations, e.txHash)
  {
    hide Run, Interleaving.Step;
    var s := Run(c, labels);
    var r := s.engine.store[id];
    var read := Engine(Interleaving.Read(w, id));
    var pay := Pay(r.terms.receiveAddress, e.received, e.confirmations, e.txHash);
    EngineActsAlone(c, labels, Interleaving.Read(w, id));
    Interleaving.CopiesAreEqual(s.engine, w, id);
    RunSnoc(c, labels + [read], pay);
    held := labels + [read] + [pay];
    assert held == labels + [read, pay];
  }

  // A sync of a held sandbox copy with nothing in between.
  lemma SyncInRun(c: Config, labels: seq<Label>, w: nat, elsewhere: Observation, now: int)
    requires var s := Run(c, labels).engine;
             w in s.workers && s.workers[w].Holding? && s.workers[w].copy.terms.chain == MOCK
    ensures var s := Run(c, labels);
            var t := Run(c, labels + [Engine(Interleaving.Observe(w, elsewhere, now)),
                                      Engine(Interleaving.Write(w, true)), Engine(Interleaving.Tell(w))]).engine;
            var copy := s.engine.workers[w].copy;
            var obs := CheckLedger(s.ledger, copy.terms.receiveAddress);
            Runs.State(t.store, t.log)
              == SyncCopy(Runs.State(s.engine.store, s.engine.log), copy, Observed(obs, now, true)).0
  {
    hide Run, Interleaving.Step, SyncCopy;
    var s := Run(c, labels);
    var look := Engine(Interleaving.Observe(w, elsewhere, now));
    var write, tell := Interleaving.Write(w, true), Interleaving.Tell(w);
    RunSnoc(c, labels, look);
    EngineActsAlone(c, labels + [look], write);
    EngineActsAlone(c, labels + [look] + [Engine(write)], tell);
    assert labels + [look, Engine(write), Engine(tell)] == labels + [look] + [Engine(write)] + [Engine(tell)];
    SyncIsThreeActs(s.engine, w, Reported(s, w, elsewhere), now, true);
  }

  lemma SyncAppends(store: map<string, Record>, log: seq<Event>, r: Record, obs: Observation, now: int)
    requires r.terms.id in store && !r.status.IsTerminal()
    ensures var paid := Advance(r, obs, now);
            SyncCopy(Runs.State(store, log), r, Observed(obs, now, true)).0
              == Runs.State(store[r.terms.id := paid],
                            log + if paid.status != r.status then [Event(paid, r.status)] else [])
  {
    hide Advance;
  }

  // Up to 2^32 allocations, a merchant's invoices have pairwise distinct indexes.
  lemma IndexesDiffer(c: Config, labels: seq<Label>, a: string, b: string)
    requires Proper(c, labels) && a != b
    requires var store := Run(c, labels).engine.store;
             && a in store && b in store
             && (forall id :: id == a || id == b ==> store[id].terms.chain == MOCK || IsBitcoin(store[id].terms.chain))
             && store[a].terms.merchantId == store[b].terms.merchantId
             && Allocations(c, labels, store[a].terms.merchantId) <= UINT32
    ensures var store := Run(c, labels).engine.store;
            store[a].terms.derivationIndex != store[b].terms.derivationIndex
  {
    hide Run, Allocations, AllocatedAt, Proper, AllocatesFor;
    var t, u := Run(c, labels).engine.store[a].terms, Run(c, labels).engine.store[b].terms;
    StoredUnderId(c, labels, a);
    StoredUnderId(c, labels, b);
    var i := IndexIsAllocationNumber(c, labels, a);
    var k := IndexIsAllocationNumber(c, labels, b);
    if i == k {
      AllocatedApart(c, labels, i, t, u);
    }
    NumbersDiffer(c, labels, i, k, t, u);
    var m, n := Allocations(c, labels[..i], t.merchantId), Allocations(c, labels[..k], t.merchantId);
    EqualRemaindersIff(m, n);
    SmallDifference(m as int - n as int);
  }

  // Hence its sandbox invoices have pairwise distinct addresses, and paying one never changes
  // what is seen of another.
  lemma PaymentsDoNotMix(c: Config, labels: seq<Label>, a: string, b: string, e: Entry)
    requires Proper(c, labels) && BothMock(c, labels, a, b) && a != b
    requires var store := Run(c, labels).engine.store;
             && store[a].terms.merchantId == store[b].terms.merchantId
             && Allocations(c, labels, store[a].terms.merchantId) <= UINT32
    ensures var s := Run(c, labels);
            var p, q := s.engine.store[a].terms.receiveAddress, s.engine.store[b].terms.receiveAddress;
            p != q && CheckLedger(s.ledger[p := e], q) == CheckLedger(s.ledger, q)
  {
    hide Run, Allocations, AllocatedAt, Proper, AllocatesFor;
    IndexesDiffer(c, labels, a, b);
    var _, _ := SharedAddressIff(c, labels, a, b);
  }

  ghost predicate BothBitcoin(c: Config, labels: seq<Label>, a: string, b: string) {
    var store := Run(c, labels).engine.store;
    a in store && b in store && IsBitcoin(store[a].terms.chain) && IsBitcoin(store[b].terms.chain)
  }

  // A bitcoin invoice's address is the one derived from the wallet it was ordered with at its
  // own index. So two invoices share one exactly when derivation gives one at both, and a
  // merchant's never do, up to 2^32 allocations, unless two indexes collide.
  lemma SharedBitcoinAddressIff(c: Config, labels: seq<Label>, a: string, b: string) returns (h: nat, k: nat)
    requires Proper(c, labels) && BothBitcoin(c, labels, a, b)
    ensures var store := Run(c, labels).engine.store;
            var t, u := store[a].terms, store[b].terms;
            && OrderedAt(c, labels, h, t) && OrderedAt(c, labels, k, u)
            && h < |labels| && labels[h].Resolve? && k < |labels| && labels[k].Resolve?
            && var p, q :=
                 c.address(t.chain, labels[h].p.wallet, t.derivationIndex),
                 c.address(u.chain, labels[k].p.wallet, u.derivationIndex);
            && p == Some(t.receiveAddress) && q == Some(u.receiveAddress)
            && (t.receiveAddress == u.receiveAddress <==> p == q)
            && (a != b && t.merchantId == u.merchantId && Allocations(c, labels, t.merchantId) <= UINT32
                && (p == q ==> t.derivationIndex == u.derivationIndex) ==>
                  t.receiveAddress != u.receiveAddress)
  {
    hide Run, Allocations, OrderedAt, RequestOk, Proper;
    var p: Request, q: Request;
    h, p := WhereOrdered(c, labels, a);
    k, q := WhereOrdered(c, labels, b);
    var t, u := Run(c, labels).engine.store[a].terms, Run(c, labels).engine.store[b].terms;
    if a != b && t.merchantId == u.merchantId && Allocations(c, labels, t.merchantId) <= UINT32 {
      IndexesDiffer(c, labels, a, b);
    }
  }

  lemma AllocatedBy(c: Config, labels: seq<Label>, i: nat, t: Terms)
    requires AllocatedAt(c, labels, i, t)
    ensures i < |labels| && AllocatesFor(Run(c, labels[..i]), labels[i], t.merchantId)
  {
    hide Run, AllocatesFor, Inserts;
    var j: nat :| CreatedAt(c, labels, i, j, t);
    assert labels[..j][..i] == labels[..i];
  }

  lemma NumbersDiffer(c: Config, labels: seq<Label>, i: nat, k: nat, t: Terms, u: Terms)
    requires AllocatedAt(c, labels, i, t) && AllocatedAt(c, labels, k, u) && i != k && t.merchantId == u.merchantId
    ensures i < |labels| && k < |labels|
    ensures var m, n := Allocations(c, labels[..i], t.merchantId), Allocations(c, labels[..k], t.merchantId);
            m != n && m < Allocations(c, labels, t.merchantId) && n < Allocations(c, labels, t.merchantId)
  {
    hide Run, Allocations, AllocatedAt, AllocatesFor;
    AllocatedBy(c, labels, i, t);
    AllocatedBy(c, labels, k, u);
    AllocationsGrow(c, labels, i, t.merchantId);
    AllocationsGrow(c, labels, k, t.merchantId);
    if i < k {
      assert labels[..k][..i] == labels[..i];
      AllocationsGrow(c, labels[..k], i, t.merchantId);
    } else {
      assert labels[..i][..k] == labels[..k];
      AllocationsGrow(c, labels[..i], k, t.merchantId);
    }
  }

  lemma SmallDifference(d: int)
    requires d < UINT32 && 0 < d + UINT32 && d != 0
    ensures d % UINT32 != 0
  {
  }

  // Between merchants there is no such separation: their first invoices share an address,
  // and a payment to one is seen for both.
  lemma MerchantsShareAddresses(c: Config, p: CreateParams, q: CreateParams, quote: Quote, x: string, y: string,
                                now: int)
    requires c.sandbox.Some? && p.merchantId != q.merchantId && x != y
    requires Orders(p) && Orders(q)
    ensures var s := Run(c, Creation(0, p, quote, x, now) + Creation(1, q, quote, y, now));
            && x in s.engine.store && y in s.engine.store
            && s.engine.store[x].terms.receiveAddress == s.engine.store[y].terms.receiveAddress == Address(0)
  {
    hide Run, Address;
    CreationCreates(c, [], 0, p, quote, x, now);
    assert [] + Creation(0, p, quote, x, now) == Creation(0, p, quote, x, now);
    RunStarts(c);
    CreationCreates(c, Creation(0, p, quote, x, now), 1, q, quote, y, now);
  }

  lemma RunStarts(c: Config)
    ensures Run(c, []) == Initial(c)
  {
  }

  // A sandbox order at a price in tBTC.
  predicate Orders(p: CreateParams) {
    p.chain == MOCK && p.merchantId != "" && p.amount.asset == TBTC && p.amount.units >= 1
  }
}
