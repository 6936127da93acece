// internal/invoice/service.go: creating invoices, syncing one, and one tick over all open ones.
module Services {
  import opened Wrappers
  import opened Money
  import opened Chain
  import opened Invoices
  import opened Lifecycle
  import opened Repository
  import opened Durations
  import Rates
  import Runs
  import Interleaving

  // A notification carries an invoice object of its own.
  datatype StatusChange = StatusChange(invoice: Invoice, previous: Status)

  // Collects notifications in the order they are emitted.
  class Emitter {
    var changes: seq<StatusChange>
    // What each notification said when it was emitted.
    ghost var log: seq<Event>

    // The objects they carry.
    ghost var snapshots: set<Invoice>

    // Every snapshot still says what it said when it was emitted.
    ghost predicate Valid()
      reads this, snapshots
    {
      && |log| == |changes|
      && forall i :: 0 <= i < |changes| ==>
           && changes[i].invoice in snapshots
           && changes[i].invoice.Value() == log[i].snapshot && changes[i].previous == log[i].previous
    }

    constructor ()
      ensures Valid() && changes == [] && log == [] && snapshots == {}
    {
      changes, log, snapshots := [], [], {};
    }

    method Emit(change: StatusChange)
      requires Valid()
      modifies this
      ensures changes == old(changes) + [change]
      ensures log == old(log) + [Event(change.invoice.Value(), change.previous)]
      ensures snapshots == old(snapshots) + {change.invoice}
      ensures Valid()
    {
      changes := changes + [change];
      log := log + [Event(change.invoice.Value(), change.previous)];
      snapshots := snapshots + {change.invoice};
    }
  }

  // ---------- creation ----------

  datatype CreateError =
    | MerchantRequired | NoAdapter | AssetMismatch | NotPositive | FiatDisabled
    | Unpriced(error: Rates.RateError) | AmountRequired | DeriveFailed | StoreFailed

  datatype CreateParams = CreateParams(
    merchantId: string, chain: string, wallet: string, amount: Amount,
    fiatCurrency: string, fiatAmount: string, rate: string)

  // The chain adapter, its address derivation (from the merchant's wallet settings) and URI
  // rendering left open.
  datatype Adapter = Adapter(
    asset: Asset, requiredConfs: int,
    derive: (string, nat, Amount) -> Option<ReceiveTarget>, paymentURI: ReceiveTarget -> string)

  // The price oracle: absent, or with its TTL and what it has cached.
  datatype Prices = Disabled | Enabled(ttl: int, cache: map<string, Rates.CacheEntry>)

  // What a creation priced in fiat meets: the providers, the clock around the price lookup,
  // the fiat amount as a rational if its text is one, and the text of the rate.
  datatype Quote = Quote(
    providers: seq<Rates.Provider>, lookupAt: int, storedAt: int, fiat: Option<Rates.Rat>, rateText: string)

  function CallFor(asset: Asset, p: CreateParams, quote: Quote): Rates.PriceCall {
    Rates.PriceCall(asset, p.fiatCurrency, quote.providers, quote.lookupAt, quote.storedAt)
  }

  predicate PricedInFiat(p: CreateParams) { p.amount.IsZero() && p.fiatCurrency != "" && p.fiatAmount != "" }

  function ResolveAmount(asset: Asset, p: CreateParams, prices: Prices, quote: Quote)
    : Result<(Amount, string), CreateError>
  {
    if !p.amount.IsZero() then
      if p.amount.asset != asset then Failure(AssetMismatch)
      else if Cmp(p.amount, Amount(asset, 0)) <= 0 then Failure(NotPositive)
      else Success((p.amount, ""))
    else if !PricedInFiat(p) then Failure(AmountRequired)
    else
      match prices
      case Disabled => Failure(FiatDisabled)
      case Enabled(ttl, cache) =>
        match Rates.Convert(asset, Rates.PriceResult(cache, ttl, CallFor(asset, p, quote)), quote.fiat)
        case Failure(e) => Failure(Unpriced(e))
        case Success(amount) => Success((amount, quote.rateText))
  }

  // The oracle is asked, and may cache a price, only for an amount in fiat.
  function PricesAfter(asset: Asset, p: CreateParams, prices: Prices, quote: Quote): Prices {
    if PricedInFiat(p) && prices.Enabled?
    then prices.(cache := Rates.CacheAfter(prices.cache, prices.ttl, CallFor(asset, p, quote)))
    else prices
  }

  // Whatever way the amount is arrived at, and whatever the providers answer, it is in the
  // chain's asset and at least one smallest unit; priced in fiat it is the least count that
  // covers the price at what the oracle answered.
  lemma ResolvedAmountIsPositive(asset: Asset, p: CreateParams, prices: Prices, quote: Quote)
    requires ResolveAmount(asset, p, prices, quote).Success?
    ensures var amount := ResolveAmount(asset, p, prices, quote).value.0;
            && amount.asset == asset && amount.units >= 1
            && (!p.amount.IsZero() ==> amount == p.amount)
            && (p.amount.IsZero() ==>
                  && prices.Enabled? && quote.fiat.Some?
                  && var call := Rates.PriceCall(asset, p.fiatCurrency, quote.providers,
                                                 quote.lookupAt, quote.storedAt);
                  && var price := Rates.PriceResult(prices.cache, prices.ttl, call);
                  && price.Success?
                  && Rates.Covers(amount.units, quote.fiat.value, price.value, asset.decimals)
                  && !Rates.Covers(amount.units - 1, quote.fiat.value, price.value, asset.decimals))
  {
    if p.amount.IsZero() {
      hide Rates.PriceResult, Rates.CryptoUnits, Rates.Covers;
      var price := Rates.PriceResult(prices.cache, prices.ttl, CallFor(asset, p, quote));
      Rates.ConvertedIsPositive(asset, price, quote.fiat);
      var units := ResolveAmount(asset, p, prices, quote).value.0.units;
      Rates.UnitsAreLeast(quote.fiat.value, price.value, asset.decimals, units);
      Rates.UnitsAreLeast(quote.fiat.value, price.value, asset.decimals, units - 1);
    }
  }

  // The oracle's rate is locked exactly when the price is in fiat.
  lemma RateOnlyInFiat(asset: Asset, p: CreateParams, prices: Prices, quote: Quote)
    requires ResolveAmount(asset, p, prices, quote).Success?
    ensures ResolveAmount(asset, p, prices, quote).value.1 == if PricedInFiat(p) then quote.rateText else ""
  {
    hide Rates.PriceResult, Rates.Convert;
  }

  // The terms of an invoice created at `now` under this identifier.
  function TermsFor(p: CreateParams, adapter: Adapter, resolved: (Amount, string), target: ReceiveTarget,
                    id: string, now: int, expiry: int): Terms
  {
    Terms(id, p.merchantId, p.chain, adapter.asset, resolved.0,
          p.fiatCurrency, p.fiatAmount, if resolved.1 != "" then resolved.1 else p.rate,
          target.address, adapter.paymentURI(target), target.strategy, target.derivationIndex,
          adapter.requiredConfs, now, now + expiry)
  }

  // The payment URI handed to the buyer asks for the invoice's amount at its address, for
  // an adapter that renders URIs in the usual form and derives for the amount asked.
  lemma CreatedURIAsksForAmount(p: CreateParams, adapter: Adapter, resolved: (Amount, string), target: ReceiveTarget,
                                id: string, now: int, expiry: int, scheme: string)
    requires adapter.paymentURI(target) == PaymentURI(scheme, target.address, target.exactAmount)
    requires target.exactAmount == resolved.0 && resolved.0.asset == adapter.asset
    requires ':' !in scheme && '?' !in scheme && '?' !in target.address
    ensures var t := TermsFor(p, adapter, resolved, target, id, now, expiry);
            URIAmount(t.asset, t.paymentURI) == Some(t.amount) && URIAddress(t.paymentURI) == Some(t.receiveAddress)
  {
    URICarriesAmount(scheme, target.address, target.exactAmount);
  }

  // ---------- one sync of a copy of any age ----------

  // What syncing a copy leaves: the store and the log, and the copy itself. The copy takes
  // the observation even when the write fails; the store and the log move only when it
  // succeeds.
  function SyncCopy(s: Runs.State, copy: Record, outcome: Outcome): (Runs.State, Record) {
    var synced := if !copy.status.IsTerminal() && outcome.Observed?
                  then Advance(copy, outcome.obs, outcome.now) else copy;
    if TakesEffect(copy, outcome) && copy.terms.id in s.store
    then (Runs.State(s.store[copy.terms.id := synced], s.log + Emitted(copy, outcome)), synced)
    else (s, synced)
  }

  // On a copy equal to the stored record that is a step of the serialised engine.
  lemma SyncOfFreshCopy(s: Runs.State, copy: Record, outcome: Outcome)
    requires copy.terms.id in s.store && s.store[copy.terms.id] == copy
    ensures SyncCopy(s, copy, outcome).0 == Runs.Step(s, Runs.Sync(copy.terms.id, outcome))
  {
  }

  // A sync that learns nothing, or of a terminal copy, changes nothing at all; one whose
  // write fails changes only the copy.
  lemma FailedSyncKeeps(s: Runs.State, copy: Record, outcome: Outcome)
    ensures copy.status.IsTerminal() || !outcome.Observed? ==> SyncCopy(s, copy, outcome) == (s, copy)
    ensures outcome.Observed? && !outcome.saved ==> SyncCopy(s, copy, outcome).0 == s
    ensures !copy.status.IsTerminal() && outcome.Observed? ==>
              SyncCopy(s, copy, outcome).1 == Advance(copy, outcome.obs, outcome.now)
  {
  }

  lemma SyncTouchesOne(s: Runs.State, copy: Record, outcome: Outcome)
    ensures var t := SyncCopy(s, copy, outcome).0;
            forall id :: id in s.store ==> id in t.store && (id != copy.terms.id ==> t.store[id] == s.store[id])
  {
  }

  // On any copy it is an observe, a write and a notification of the interleaved engine with
  // nothing in between.
  lemma SyncIsThreeActs(s: Interleaving.State, w: nat, obs: Observation, now: int, saved: bool)
    requires w in s.workers && s.workers[w].Holding?
    ensures var copy := s.workers[w].copy;
            var observed := Interleaving.Step(s, Interleaving.Observe(w, obs, now));
            var written := Interleaving.Step(observed, Interleaving.Write(w, saved));
            var t := Interleaving.Step(written, Interleaving.Tell(w));
            var (state, synced) := SyncCopy(Runs.State(s.store, s.log), copy, Observed(obs, now, saved));
            && state == Runs.State(t.store, t.log) && Interleaving.IsIdle(t, w) && w in t.workers
            && synced == t.workers[w].copy
  {
  }

  // ---------- one tick ----------

  // What the world answers in one tick, invoice by invoice.
  type Feed = string -> Outcome

  function TickLabels(ids: seq<string>, feed: Feed): (labels: seq<Runs.Label>)
    ensures |labels| == |ids|
    ensures forall i :: 0 <= i < |ids| ==> labels[i] == Runs.Sync(ids[i], feed(ids[i]))
  {
    seq(|ids|, i requires 0 <= i < |ids| => Runs.Sync(ids[i], feed(ids[i])))
  }

  // The effect of one tick: a sync of each invoice that was open when the tick began.
  function Tick(s: Runs.State, order: seq<string>, feed: Feed): Runs.State
    requires forall id :: id in order ==> id in s.store
  {
    Runs.RunFrom(s, TickLabels(OpenIds(order, s.store), feed))
  }

  // Syncing a list of invoices acts on each by itself: one whose sync fails keeps its
  // record, every other is advanced by its own observation.
  lemma {:induction false} SyncsArePointwise(s: Runs.State, ids: seq<string>, feed: Feed, id: string)
    requires Distinct(ids) && forall i :: i in ids ==> i in s.store
    ensures var t := Runs.RunFrom(s, TickLabels(ids, feed));
            && t.store.Keys == s.store.Keys
            && (id in s.store ==> t.store[id] == if id in ids then Synced(s.store[id], feed(id)) else s.store[id])
  {
    if ids == [] {
      NoLabels(s, feed);
    } else {
      hide Synced, Emitted, Runs.RunFrom, TickLabels;
      var n := |ids| - 1;
      assert ids == ids[..n] + [ids[n]] && ids[..n + 1] == ids;
      SyncsArePointwise(s, ids[..n], feed, id);
      SyncsArePointwise(s, ids[..n], feed, ids[n]);
      OneMoreLabel(s, ids, n, feed);
    }
  }

  // And each tells its own events.
  lemma {:induction false} SyncsTellTheirOwn(s: Runs.State, ids: seq<string>, feed: Feed, id: string)
    requires Distinct(ids) && forall i :: i in ids ==> i in s.store
    requires forall i :: i in s.store ==> s.store[i].terms.id == i
    ensures Runs.EventsOf(Runs.RunFrom(s, TickLabels(ids, feed)).log, id)
         == Runs.EventsOf(s.log, id) + if id in ids then Emitted(s.store[id], feed(id)) else []
  {
    if ids == [] {
      NoLabels(s, feed);
    } else {
      hide Synced, Emitted, Runs.EventsOf, Runs.RunFrom, TickLabels;
      var n := |ids| - 1;
      var last := ids[n];
      assert ids == ids[..n] + [last] && ids[..n + 1] == ids;
      SyncsTellTheirOwn(s, ids[..n], feed, id);
      SyncsArePointwise(s, ids[..n], feed, last);
      OneMoreLabel(s, ids, n, feed);
      var t := Runs.RunFrom(s, TickLabels(ids[..n], feed));
      EventsOfSync(t.log, s.store[last], feed(last), id);
    }
  }

  lemma EventsOfSync(log: seq<Event>, r: Record, outcome: Outcome, id: string)
    ensures Runs.EventsOf(log + Emitted(r, outcome), id)
         == Runs.EventsOf(log, id) + if r.terms.id == id then Emitted(r, outcome) else []
  {
    Runs.EmittedIsAboutIt(r, outcome);
    var told := Emitted(r, outcome);
    if told == [] {
      assert log + told == log;
    } else {
      Runs.EventsOfAppend(log, told[0], id);
    }
  }

  ghost predicate Indexed(s: Runs.State, order: seq<string>) {
    && Distinct(order)
    && (forall id :: id in order <==> id in s.store)
    && (forall id :: id in s.store ==> RecordOk(s.store[id]) && s.store[id].terms.id == id)
  }

  lemma TickIsPointwise(s: Runs.State, order: seq<string>, feed: Feed, id: string)
    requires Indexed(s, order) && id in s.store
    ensures var t := Tick(s, order, feed);
            && t.store.Keys == s.store.Keys
            && t.store[id] == Synced(s.store[id], feed(id))
            && Runs.EventsOf(t.log, id) == Runs.EventsOf(s.log, id) + Emitted(s.store[id], feed(id))
  {
    OpenIdsDistinct(order, s.store);
    SyncsArePointwise(s, OpenIds(order, s.store), feed, id);
    SyncsTellTheirOwn(s, OpenIds(order, s.store), feed, id);
    assert s.store[id].status.IsTerminal() ==> Emitted(s.store[id], feed(id)) == [];
  }

  ghost predicate FaultFree(s: Runs.State, feed: Feed) {
    forall id :: id in s.store && !s.store[id].status.IsTerminal() ==> feed(id).Observed? && feed(id).saved
  }

  // After a tick without faults past every deadline, only confirming invoices are open.
  lemma LateTickLeavesConfirming(s: Runs.State, order: seq<string>, feed: Feed, id: string)
    requires Indexed(s, order) && id in s.store && FaultFree(s, feed)
    requires feed(id).Observed? ==> feed(id).now > s.store[id].terms.expiresAt
    ensures var t := Tick(s, order, feed);
            id in t.store && (t.store[id].status.IsTerminal() || t.store[id].status == Confirming)
  {
    TickIsPointwise(s, order, feed, id);
  }

  // A second tick that observes the same, with no deadline passed in between, emits nothing
  // and moves nothing but the update time.
  lemma RepeatedTickIsQuiet(s: Runs.State, order: seq<string>, feed: Feed, again: Feed, id: string)
    requires Indexed(s, order) && id in s.store && FaultFree(s, feed)
    requires feed(id).Observed? && again(id).Observed? ==>
               && again(id).obs == feed(id).obs
               && (again(id).now > s.store[id].terms.expiresAt) == (feed(id).now > s.store[id].terms.expiresAt)
    ensures var once := Tick(s, order, feed);
            && Indexed(once, order)
            && var twice := Tick(once, order, again);
            && id in once.store && id in twice.store
            && Runs.EventsOf(twice.log, id) == Runs.EventsOf(once.log, id)
            && twice.store[id].(updatedAt := once.store[id].updatedAt) == once.store[id]
  {
    hide Tick, Synced, Emitted, RecordOk, Runs.EventsOf;
    var once := Tick(s, order, feed);
    TickKeepsIndexed(s, order, feed);
    TickIsPointwise(s, order, feed, id);
    TickIsPointwise(once, order, again, id);
    QuietOnceMore(s.store[id], feed(id), again(id));
    var events := Runs.EventsOf(once.log, id);
    assert events + [] == events;
  }

  // If that holds of every open invoice, the whole second tick is silent.
  lemma RepeatedTickIsSilent(s: Runs.State, order: seq<string>, feed: Feed, again: Feed)
    requires Indexed(s, order) && FaultFree(s, feed)
    requires forall id :: id in s.store && !s.store[id].status.IsTerminal() && again(id).Observed? ==>
               && again(id).obs == feed(id).obs
               && (again(id).now > s.store[id].terms.expiresAt) == (feed(id).now > s.store[id].terms.expiresAt)
    ensures var once := Tick(s, order, feed);
            Indexed(once, order) && Tick(once, order, again).log == once.log
  {
    hide Synced, Emitted, RecordOk;
    var once := Tick(s, order, feed);
    TickKeepsIndexed(s, order, feed);
    OpenIdsDistinct(order, s.store);
    OpenIdsDistinct(order, once.store);
    SyncsArePointwise(s, OpenIds(order, s.store), feed, "");
    forall id | id in once.store
      ensures Emitted(once.store[id], again(id)) == []
    {
      TickIsPointwise(s, order, feed, id);
      if s.store[id].status.IsTerminal() {
        TerminalIsQuiet(s.store[id], feed(id), again(id));
      } else {
        QuietOnceMore(s.store[id], feed(id), again(id));
      }
    }
    SilentSyncs(once, OpenIds(order, once.store), again);
  }

  lemma TerminalIsQuiet(r: Record, first: Outcome, second: Outcome)
    requires r.status.IsTerminal()
    ensures Synced(r, first) == r && Emitted(r, second) == []
  {
  }

  // Syncs that each tell nothing tell nothing together.
  lemma {:induction false} SilentSyncs(s: Runs.State, ids: seq<string>, feed: Feed)
    requires Distinct(ids) && forall i :: i in ids ==> i in s.store && Emitted(s.store[i], feed(i)) == []
    ensures Runs.RunFrom(s, TickLabels(ids, feed)).log == s.log
  {
    if ids == [] {
      NoLabels(s, feed);
    } else {
      hide Synced, Emitted, Runs.RunFrom, TickLabels;
      var n := |ids| - 1;
      assert ids == ids[..n] + [ids[n]] && ids[..n + 1] == ids;
      SilentSyncs(s, ids[..n], feed);
      SyncsArePointwise(s, ids[..n], feed, ids[n]);
      OneMoreLabel(s, ids, n, feed);
      assert s.log + [] == s.log;
    }
  }

  lemma TickKeepsIndexed(s: Runs.State, order: seq<string>, feed: Feed)
    requires Indexed(s, order)
    ensures Indexed(Tick(s, order, feed), order)
  {
    hide RecordOk, Advance, Runs.EventsOf;
    var t := Tick(s, order, feed);
    OpenIdsDistinct(order, s.store);
    SyncsArePointwise(s, OpenIds(order, s.store), feed, "");
    forall i | i in s.store
      ensures RecordOk(t.store[i]) && t.store[i].terms.id == i
    {
      TickIsPointwise(s, order, feed, i);
      if TakesEffect(s.store[i], feed(i)) {
        AdvanceOk(s.store[i], feed(i).obs, feed(i).now);
      }
    }
  }

  lemma QuietOnceMore(r: Record, first: Outcome, second: Outcome)
    requires !r.status.IsTerminal() ==> first.Observed? && first.saved
    requires first.Observed? && second.Observed? ==>
               && second.obs == first.obs
               && (second.now > r.terms.expiresAt) == (first.now > r.terms.expiresAt)
    ensures Emitted(Synced(r, first), second) == []
    ensures var once := Synced(r, first);
            Synced(once, second).(updatedAt := once.updatedAt) == once
  {
  }

  // ---------- the service ----------

  class Service {
    const repo: MemRepository
    const emitter: Emitter
    const oracle: Rates.Oracle?
    const expiry: int

    constructor (repo: MemRepository, emitter: Emitter, oracle: Rates.Oracle?, expiry: int)
      ensures this.repo == repo && this.emitter == emitter && this.oracle == oracle
      ensures this.expiry > 0
      ensures this.expiry == if expiry > 0 then expiry else 900 * SECOND
    {
      this.repo, this.emitter, this.oracle := repo, emitter, oracle;
      this.expiry := if expiry <= 0 then 15 * MINUTE else expiry;
    }

    // The store and everything told so far.
    ghost function State(): Runs.State
      reads repo, emitter
    {
      Runs.State(repo.byID, emitter.log)
    }

    ghost function Prices(): Prices
      reads oracle
    {
      if oracle == null then Disabled else Enabled(oracle.ttl, oracle.cache)
    }

    // resolveAmount.
    method Resolve(asset: Asset, p: CreateParams, quote: Quote) returns (r: Result<(Amount, string), CreateError>)
      modifies oracle
      ensures r == ResolveAmount(asset, p, old(Prices()), quote)
      ensures Prices() == PricesAfter(asset, p, old(Prices()), quote)
    {
      if !p.amount.IsZero() {
        if p.amount.asset != asset {
          return Failure(AssetMismatch);
        }
        if Cmp(p.amount, Amount(asset, 0)) <= 0 {
          return Failure(NotPositive);
        }
        return Success((p.amount, ""));
      }
      if p.fiatCurrency != "" && p.fiatAmount != "" {
        if oracle == null {
          return Failure(FiatDisabled);
        }
        var amount := oracle.CryptoAmount(CallFor(asset, p, quote), quote.fiat);
        if amount.Failure? {
          return Failure(Unpriced(amount.error));
        }
        return Success((amount.value, quote.rateText));
      }
      r := Failure(AmountRequired);
    }

    // Create. `saved` is whether the repository takes the insert.
    method Create(p: CreateParams, adapter: Option<Adapter>, quote: Quote, id: string, now: int, saved: bool)
      returns (r: Result<Invoice, CreateError>)
      requires expiry > 0
      modifies repo, oracle
      // The oracle is asked once merchant and chain are known.
      ensures Prices() == if p.merchantId != "" && adapter.Some?
                          then PricesAfter(adapter.value.asset, p, old(Prices()), quote) else old(Prices())
      // Nothing else happens unless the request is sound; an index is used up even when
      // derivation or the insert then fails.
      ensures var sound := && p.merchantId != "" && adapter.Some?
                           && ResolveAmount(adapter.value.asset, p, old(Prices()), quote).Success?;
              var index := if p.merchantId in old(repo.counters) then old(repo.counters)[p.merchantId] else 0;
              && repo.counters == (if sound then old(repo.counters)[p.merchantId := NextCounter(index)]
                                   else old(repo.counters))
              && (r.Success? ==> sound && saved)
              && (sound ==>
                    var resolved := ResolveAmount(adapter.value.asset, p, old(Prices()), quote).value;
                    var target := adapter.value.derive(p.wallet, index, resolved.0);
                    && (r.Success? <==> saved && target.Some?)
                    && (r.Success? ==>
                          var rate := if PricedInFiat(p) && quote.rateText != "" then quote.rateText else p.rate;
                          var terms := Terms(id, p.merchantId, p.chain, adapter.value.asset, resolved.0,
                                             p.fiatCurrency, p.fiatAmount, rate, target.value.address,
                                             adapter.value.paymentURI(target.value), target.value.strategy,
                                             target.value.derivationIndex, adapter.value.requiredConfs,
                                             now, now + expiry);
                          && fresh(r.value) && TermsOk(terms)
                          && r.value.Value() ==
                               Record(terms, Pending, Amount(terms.asset, 0), 0, "", None, now)
                          && State() == Runs.Step(old(State()), Runs.Create(terms))
                          && repo.order == old(repo.order) + [id]))
              && (r.Failure? ==> State() == old(State()) && repo.order == old(repo.order))
      ensures old(repo.Valid()) && id !in old(repo.byID) ==> repo.Valid()
    {
      if p.merchantId == "" {
        return Failure(MerchantRequired);
      }
      if adapter.None? {
        return Failure(NoAdapter);
      }
      var chain := adapter.value;
      hide ResolveAmount, PricesAfter;
      ghost var prices := Prices();
      var resolved := Resolve(chain.asset, p, quote);
      if resolved.Failure? {
        return Failure(resolved.error);
      }
      ResolvedAmountIsPositive(chain.asset, p, prices, quote);
      RateOnlyInFiat(chain.asset, p, prices, quote);
      var index := repo.NextDerivationIndex(p.merchantId);
      var target := chain.derive(p.wallet, index, resolved.value.0);
      if target.None? {
        return Failure(DeriveFailed);
      }
      var inv := new Invoice(NewRecord(TermsFor(p, chain, resolved.value, target.value, id, now, expiry)));
      if !saved {
        return Failure(StoreFailed);
      }
      repo.Create(inv);
      r := Success(inv);
    }

    // The middle of Sync: decide, and assign the observation to the invoice's fields.
    method Absorb(inv: Invoice, obs: Observation, now: int) returns (changed: bool)
      modifies inv
      ensures inv.Value() == Advance(old(inv.Value()), obs, now)
      ensures changed <==> inv.status != old(inv.status)
      ensures inv.terms == old(inv.terms)
    {
      var prev := inv.status;
      var next := Decide(inv.terms, obs, now);
      if obs.seen {
        inv.received := obs.received;
        inv.confirmations := obs.confirmations;
        if obs.txHash != "" {
          inv.txHash := obs.txHash;
        }
      }
      inv.updatedAt := now;
      changed := next != prev;
      if changed {
        inv.status := next;
        if next.IsSettled() && inv.paidAt.None? {
          inv.paidAt := Some(now);
        }
      }
    }

    // Sync.
    method Sync(inv: Invoice, outcome: Outcome) returns (changed: bool)
      requires emitter.Valid() && inv !in emitter.snapshots
      modifies inv, repo`byID, emitter
      ensures (State(), inv.Value()) == SyncCopy(old(State()), old(inv.Value()), outcome)
      ensures old(inv.status).IsTerminal() || !outcome.Observed? ==>
                State() == old(State()) && inv.Value() == old(inv.Value())
      ensures changed <==> emitter.log != old(emitter.log)
      ensures emitter.Valid()
      ensures old(emitter.changes) <= emitter.changes
      ensures inv !in emitter.snapshots
      ensures forall c :: c in emitter.snapshots ==> c in old(emitter.snapshots) || fresh(c)
      ensures old(repo.Valid()) ==> repo.Valid()
    {
      if inv.status.IsTerminal() {
        return false;
      }
      if !outcome.Observed? {
        return false;
      }
      hide Advance, Decide;
      var prev := inv.status;
      changed := Absorb(inv, outcome.obs, outcome.now);
      if !outcome.saved {
        return false;
      }
      var found := repo.Update(inv);
      if !found {
        return false;
      }
      if changed {
        var snapshot := new Invoice(inv.Value());
        emitter.Emit(StatusChange(snapshot, prev));
      }
      assert old(emitter.log) + [] == old(emitter.log);
    }

    // ProcessOpen.
    method ProcessOpen(feed: Feed)
      requires repo.Valid() && emitter.Valid()
      modifies repo`byID, emitter
      ensures State() == Tick(old(State()), old(repo.order), feed)
      ensures repo.Valid() && emitter.Valid()
      ensures old(emitter.changes) <= emitter.changes
      ensures forall c :: c in emitter.snapshots ==> c in old(emitter.snapshots) || fresh(c)
    {
      hide Advance, Synced, Emitted, TakesEffect, SyncCopy, Runs.RunFrom, Runs.Step, OpenIds, TickLabels;
      ghost var start := State();
      ghost var ids := OpenIds(repo.order, repo.byID);
      OpenIdsDistinct(repo.order, repo.byID);
      var open := repo.ListOpen();
      NoLabels(start, feed);
      var i := 0;
      while i < |open|
        invariant 0 <= i <= |open|
        invariant repo.Valid() && emitter.Valid()
        invariant State() == Runs.RunFrom(start, TickLabels(ids[..i], feed))
        invariant forall k :: i <= k < |open| ==>
          open[k] !in emitter.snapshots && ids[k] in repo.byID && open[k].Value() == repo.byID[ids[k]]
        invariant old(emitter.changes) <= emitter.changes
        invariant forall c :: c in emitter.snapshots ==> c in old(emitter.snapshots) || fresh(c)
      {
        OneMoreLabel(start, ids, i, feed);
        assert open[i].terms.id == ids[i] by {
          assert open[i].Value().terms.id == ids[i];
        }
        SyncOfFreshCopy(State(), open[i].Value(), feed(ids[i]));
        SyncTouchesOne(State(), open[i].Value(), feed(ids[i]));
        var _ := Sync(open[i], feed(open[i].terms.id));
        i := i + 1;
      }
      assert ids[..i] == ids;
    }
  }

  lemma NoLabels(s: Runs.State, feed: Feed)
    ensures Runs.RunFrom(s, TickLabels([], feed)) == s
  {
  }

  lemma OneMoreLabel(s: Runs.State, ids: seq<string>, i: nat, feed: Feed)
    requires i < |ids|
    ensures Runs.RunFrom(s, TickLabels(ids[..i + 1], feed))
         == Runs.Step(Runs.RunFrom(s, TickLabels(ids[..i], feed)), Runs.Sync(ids[i], feed(ids[i])))
  {
    var labels := TickLabels(ids[..i + 1], feed);
    assert labels[..i] == TickLabels(ids[..i], feed);
  }

  // The watcher: tick after tick.
  function Ticks(s: Runs.State, order: seq<string>, feeds: seq<Feed>): (t: Runs.State)
    requires forall id :: id in order ==> id in s.store
    ensures forall id :: id in order ==> id in t.store
  {
    if feeds == [] then s
    else
      var before := Ticks(s, order, feeds[..|feeds| - 1]);
      KeepsKeys(before, TickLabels(OpenIds(order, before.store), feeds[|feeds| - 1]));
      Tick(before, order, feeds[|feeds| - 1])
  }

  lemma {:induction false} KeepsKeys(s: Runs.State, labels: seq<Runs.Label>)
    requires forall l :: l in labels ==> l.Sync?
    ensures Runs.RunFrom(s, labels).store.Keys == s.store.Keys
  {
    if labels != [] {
      assert labels[|labels| - 1] in labels;
      KeepsKeys(s, labels[..|labels| - 1]);
    }
  }

  // The syncs of the ticks, in order.
  function WatchLabels(s: Runs.State, order: seq<string>, feeds: seq<Feed>): (labels: seq<Runs.Label>)
    requires forall id :: id in order ==> id in s.store
    ensures forall l :: l in labels ==> l.Sync?
  {
    if feeds == [] then []
    else
      var before := feeds[..|feeds| - 1];
      WatchLabels(s, order, before)
      + TickLabels(OpenIds(order, Ticks(s, order, before).store), feeds[|feeds| - 1])
  }

  // Ticks are a run of the serialised engine, so that what every run keeps holds over them.
  lemma {:induction false} TicksAreARun(s: Runs.State, order: seq<string>, feeds: seq<Feed>)
    requires forall id :: id in order ==> id in s.store
    ensures Ticks(s, order, feeds) == Runs.RunFrom(s, WatchLabels(s, order, feeds))
  {
    if feeds != [] {
      hide OpenIds, TickLabels;
      var before := feeds[..|feeds| - 1];
      TicksAreARun(s, order, before);
      Runs.RunFromAppend(s, WatchLabels(s, order, before),
                         TickLabels(OpenIds(order, Ticks(s, order, before).store), feeds[|feeds| - 1]));
    }
  }

  // Ticks with anything else in between: a creation, or a sync for one request.
  datatype Turn = Single(step: Runs.Label) | Round(feed: Feed)

  // The state after some turns, and the invoices in insertion order.
  function AfterTurns(turns: seq<Turn>): (r: (Runs.State, seq<string>))
    ensures forall id :: id in r.1 ==> id in r.0.store
  {
    if turns == [] then (Runs.EMPTY, [])
    else
      var (s, order) := AfterTurns(turns[..|turns| - 1]);
      match turns[|turns| - 1]
      case Single(step) => (Runs.Step(s, step), if step.Create? then order + [step.terms.id] else order)
      case Round(feed) =>
        KeepsKeys(s, TickLabels(OpenIds(order, s.store), feed));
        (Tick(s, order, feed), order)
  }

  function TurnLabels(turns: seq<Turn>): seq<Runs.Label> {
    if turns == [] then []
    else
      var before := turns[..|turns| - 1];
      var (s, order) := AfterTurns(before);
      TurnLabels(before) + match turns[|turns| - 1] {
        case Single(step) => [step]
        case Round(feed) => TickLabels(OpenIds(order, s.store), feed)
      }
  }

  lemma {:induction false} TurnsAreARun(turns: seq<Turn>)
    ensures AfterTurns(turns).0 == Runs.Run(TurnLabels(turns))
  {
    if turns != [] {
      hide OpenIds, TickLabels, Runs.Step;
      var before := turns[..|turns| - 1];
      TurnsAreARun(before);
      var (s, order) := AfterTurns(before);
      match turns[|turns| - 1] {
        case Single(step) =>
          assert [step][..0] == [];
          assert Runs.RunFrom(s, [step]) == Runs.Step(s, step);
          Runs.RunFromAppend(Runs.EMPTY, TurnLabels(before), [step]);
        case Round(feed) =>
          Runs.RunFromAppend(Runs.EMPTY, TurnLabels(before), TickLabels(OpenIds(order, s.store), feed));
      }
    }
  }

  ghost predicate ProperTurns(turns: seq<Turn>) {
    && (forall i :: 0 <= i < |turns| && Creates(turns[i]) ==> TermsOk(turns[i].step.terms))
    && (forall i, j :: 0 <= i < j < |turns| && Creates(turns[i]) && Creates(turns[j]) ==>
          turns[i].step.terms.id != turns[j].step.terms.id)
  }

  predicate Creates(turn: Turn) { turn.Single? && turn.step.Create? }

  lemma {:induction false} TurnOfCreation(turns: seq<Turn>, i: nat) returns (k: nat)
    requires i < |TurnLabels(turns)| && TurnLabels(turns)[i].Create?
    ensures k < |turns| && turns[k] == Single(TurnLabels(turns)[i])
  {
    var n := |turns| - 1;
    if i < |TurnLabels(turns[..n])| {
      k := TurnOfCreation(turns[..n], i);
    } else {
      k := n;
    }
  }

  lemma {:induction false} TurnLabelsAreProper(turns: seq<Turn>)
    requires ProperTurns(turns)
    ensures Runs.ProperCreates(TurnLabels(turns))
  {
    if turns != [] {
      hide AfterTurns, OpenIds, TermsOk;
      var n := |turns| - 1;
      TurnLabelsAreProper(turns[..n]);
      var labels := TurnLabels(turns[..n]);
      if Creates(turns[n]) {
        forall i | 0 <= i < |labels| && labels[i].Create?
          ensures labels[i].terms.id != turns[n].step.terms.id
        {
          var k := TurnOfCreation(turns[..n], i);
          assert turns[..n][k] == turns[k] && Creates(turns[k]);
        }
        assert TurnLabels(turns) == labels + [turns[n].step];
      } else {
        TurnAddsNoCreation(turns);
      }
    }
  }

  lemma TurnAddsNoCreation(turns: seq<Turn>)
    requires turns != [] && !Creates(turns[|turns| - 1])
    ensures var labels, before := TurnLabels(turns), TurnLabels(turns[..|turns| - 1]);
            before <= labels && forall i :: |before| <= i < |labels| ==> labels[i].Sync?
  {
  }

  lemma CreatedIsUnused(turns: seq<Turn>, turn: Turn)
    requires ProperTurns(turns + [turn]) && Creates(turn)
    ensures turn.step.terms.id !in AfterTurns(turns).0.store
  {
    hide AfterTurns, OpenIds, TermsOk;
    var all := turns + [turn];
    assert all[..|turns|] == turns && all[|turns|] == turn;
    TurnLabelsAreProper(all);
    TurnsAreARun(turns);
    assert TurnLabels(all) == TurnLabels(turns) + [turn.step];
    Runs.CreateIsFresh(TurnLabels(turns), turn.step);
  }

  lemma StepKeepsIndexed(s: Runs.State, order: seq<string>, step: Runs.Label)
    requires Indexed(s, order)
    requires step.Create? ==> step.terms.id !in s.store && TermsOk(step.terms)
    ensures Indexed(Runs.Step(s, step), if step.Create? then order + [step.terms.id] else order)
  {
    hide RecordOk, Advance, NewRecord, TermsOk, Emitted;
    if step.Create? {
      NewRecordOk(step.terms);
      assert NewRecord(step.terms).terms == step.terms by {
        NewKeepsTerms(step.terms);
      }
    } else if step.id in s.store && TakesEffect(s.store[step.id], step.outcome) {
      AdvanceOk(s.store[step.id], step.outcome.obs, step.outcome.now);
    }
  }

  lemma NewKeepsTerms(terms: Terms)
    ensures NewRecord(terms).terms == terms
  {
  }

  // The ticks go over exactly the stored invoices, each once.
  lemma {:induction false} TurnsAreIndexed(turns: seq<Turn>)
    requires ProperTurns(turns)
    ensures Indexed(AfterTurns(turns).0, AfterTurns(turns).1)
  {
    if turns != [] {
      hide Runs.RunFrom, Runs.Step, OpenIds, RecordOk, Tick, TermsOk, Indexed;
      var n := |turns| - 1;
      TurnsAreIndexed(turns[..n]);
      var (s, order) := AfterTurns(turns[..n]);
      match turns[n] {
        case Round(feed) =>
          TickKeepsIndexed(s, order, feed);
        case Single(step) =>
          if step.Create? {
            assert turns == turns[..n] + [turns[n]];
            CreatedIsUnused(turns[..n], turns[n]);
          }
          StepKeepsIndexed(s, order, step);
      }
    }
  }

  // However long the watcher runs, and whatever is created or synced between its ticks, as
  // long as one sync ends before the next begins each invoice's notifications form one chain
  // that ends in its stored status.
  lemma WatcherTellsChains(turns: seq<Turn>, id: string)
    requires ProperTurns(turns)
    ensures Runs.TellsChain(AfterTurns(turns).0, id)
  {
    hide AfterTurns, TurnLabels, Runs.TellsChain, Runs.RunFrom;
    TurnsAreARun(turns);
    TurnLabelsAreProper(turns);
    Runs.EventsFormChain(TurnLabels(turns), id);
  }

  // Over any number of ticks the notifications already made keep saying what they said
  // (emitter.Valid), none is withdrawn, and the state is that of the ticks one by one.
  method Watch(svc: Service, feeds: seq<Feed>)
    requires svc.repo.Valid() && svc.emitter.Valid()
    modifies svc.repo`byID, svc.emitter
    ensures svc.State() == Ticks(old(svc.State()), svc.repo.order, feeds)
    ensures svc.repo.Valid() && svc.emitter.Valid()
    ensures old(svc.emitter.changes) <= svc.emitter.changes
  {
    var i := 0;
    while i < |feeds|
      invariant 0 <= i <= |feeds|
      invariant svc.repo.Valid() && svc.emitter.Valid()
      invariant svc.State() == Ticks(old(svc.State()), svc.repo.order, feeds[..i])
      invariant old(svc.emitter.changes) <= svc.emitter.changes
    {
      assert feeds[..i + 1][..i] == feeds[..i];
      svc.ProcessOpen(feeds[i]);
      i := i + 1;
    }
    assert feeds[..i] == feeds;
  }

  // ---------- a caller who keeps its invoice object ----------

  // A caller syncs an object, or assigns its fields as it pleases.
  datatype CallerStep = SyncIt(outcome: Outcome) | Scribble(r: Record)

  function Session(s: Runs.State, copy: Record, steps: seq<CallerStep>): (Runs.State, Record) {
    if steps == [] then (s, copy)
    else
      var (s', copy') := Session(s, copy, steps[..|steps| - 1]);
      match steps[|steps| - 1]
      case SyncIt(outcome) => SyncCopy(s', copy', outcome)
      case Scribble(r) => (s', r)
  }

  // However long the caller goes on with one object, the objects of earlier notifications
  // keep saying what they said, none is withdrawn, and the repository moves only by the
  // syncs: the object shares nothing with either.
  method CallerSession(svc: Service, inv: Invoice, steps: seq<CallerStep>)
    requires svc.emitter.Valid() && inv !in svc.emitter.snapshots
    modifies inv, svc.repo`byID, svc.emitter
    ensures (svc.State(), inv.Value()) == Session(old(svc.State()), old(inv.Value()), steps)
    ensures svc.emitter.Valid()
    ensures old(svc.emitter.changes) <= svc.emitter.changes
    ensures forall c :: c in old(svc.emitter.changes) ==> c.invoice.Value() == old(c.invoice.Value())
  {
    var i := 0;
    while i < |steps|
      invariant 0 <= i <= |steps|
      invariant svc.emitter.Valid() && inv !in svc.emitter.snapshots
      invariant (svc.State(), inv.Value()) == Session(old(svc.State()), old(inv.Value()), steps[..i])
      invariant old(svc.emitter.changes) <= svc.emitter.changes
      invariant forall c :: c in old(svc.emitter.changes) ==> c.invoice.Value() == old(c.invoice.Value())
    {
      assert steps[..i + 1][..i] == steps[..i];
      match steps[i] {
        case SyncIt(outcome) =>
          var _ := svc.Sync(inv, outcome);
        case Scribble(r) =>
          inv.terms, inv.status, inv.received := r.terms, r.status, r.received;
          inv.confirmations, inv.txHash, inv.paidAt, inv.updatedAt := r.confirmations, r.txHash, r.paidAt, r.updatedAt;
      }
      i := i + 1;
    }
    assert steps[..i] == steps;
  }
}
