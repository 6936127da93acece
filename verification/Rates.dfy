// internal/rates: exact conversion of fiat prices, and the price cache.
module Rates {
  import opened Wrappers
  import opened Text
  import opened Money
  import opened Durations

  // ---------- rationals ----------

  datatype Ratio = Ratio(num: int, den: int)

  // big.Rat, not necessarily in lowest terms: see CeilIgnoresCommonFactors.
  type Rat = r: Ratio | r.den > 0 witness Ratio(0, 1)

  // What the oracle caches and returns: it takes no other price from a provider.
  type Price = r: Ratio | r.den > 0 && r.num > 0 witness Ratio(1, 1)

  ghost function Value(r: Rat): real { r.num as real / r.den as real }

  function Add(a: Rat, b: Rat): Rat {
    Positive(a.den, b.den);
    Ratio(a.num * b.den + b.num * a.den, a.den * b.den)
  }

  function Mul(a: Rat, b: Rat): Rat {
    Positive(a.den, b.den);
    Ratio(a.num * b.num, a.den * b.den)
  }

  function Quo(a: Rat, b: Rat): Rat
    requires b.num > 0
  {
    Positive(a.den, b.num);
    Ratio(a.num * b.den, a.den * b.num)
  }

  lemma Positive(x: int, y: int)
    requires x > 0 && y > 0
    ensures x * y > 0
  {
  }

  // big.Int.QuoRem for a positive divisor: the quotient is truncated toward zero.
  function QuoRem(num: int, den: int): (r: (int, int))
    requires den > 0
    ensures num == r.0 * den + r.1
    ensures -den < r.1 < den
    ensures num >= 0 ==> r.1 >= 0
    ensures num <= 0 ==> r.1 <= 0
  {
    var q := if num >= 0 then num / den else -((-num) / den);
    (q, num - q * den)
  }

  function CeilRat(r: Rat): int {
    var (q, m) := QuoRem(r.num, r.den);
    if m > 0 then q + 1 else q
  }

  // The true ceiling, for negative values too: an integer is at least CeilRat(r) exactly
  // when it is at least r.
  lemma CeilIsCeiling(r: Rat, m: int)
    ensures m >= CeilRat(r) <==> m * r.den >= r.num
    ensures m >= CeilRat(r) <==> m as real >= Value(r)
  {
    var c := CeilRat(r);
    var (q, rem) := QuoRem(r.num, r.den);
    if m >= c {
      MulMonotone(c, m, r.den);
    } else {
      MulMonotone(m, c - 1, r.den);
    }
    CrossMultiply(m, r);
  }

  lemma MulMonotone(x: int, y: int, k: int)
    requires x <= y && k >= 0
    ensures x * k <= y * k
  {
  }

  lemma CrossMultiply(m: int, r: Rat)
    ensures m as real >= Value(r) <==> m * r.den >= r.num
  {
  }

  lemma RealMulMonotone(x: real, y: real, k: real)
    requires k > 0.0
    ensures x >= y <==> x * k >= y * k
  {
  }

  // So reducing a fraction before rounding it changes nothing.
  lemma CeilIgnoresCommonFactors(r: Rat, k: int)
    requires k > 0
    ensures r.den * k > 0
    ensures CeilRat(Ratio(r.num * k, r.den * k)) == CeilRat(r)
  {
    Positive(r.den, k);
    var s: Rat := Ratio(r.num * k, r.den * k);
    SameCeil(r, s, CeilRat(r), k);
    SameCeil(r, s, CeilRat(s), k);
  }

  lemma SameCeil(r: Rat, s: Rat, m: int, k: int)
    requires k > 0 && s.num == r.num * k && s.den == r.den * k
    ensures m >= CeilRat(r) <==> m >= CeilRat(s)
  {
    hide CeilRat, Value;
    CeilIsCeiling(r, m);
    CeilIsCeiling(s, m);
    MulAssociative(m, r.den, k);
    ScaleBoth(m * r.den, r.num, k);
  }

  lemma ScaleBoth(x: int, y: int, k: int)
    requires k > 0
    ensures x >= y <==> x * k >= y * k
  {
    if x >= y {
      MulMonotone(y, x, k);
    } else {
      MulMonotone(x, y - 1, k);
    }
  }

  // ---------- conversion ----------

  function Scale(decimals: nat): Rat { Ratio(Pow10(decimals), 1) }

  // ceil((fiat / price) * 10^decimals).
  function CryptoUnits(fiat: Rat, price: Rat, decimals: nat): int
    requires price.num > 0
  {
    CeilRat(Mul(Quo(fiat, price), Scale(decimals)))
  }

  ghost predicate Covers(units: int, fiat: Rat, price: Rat, decimals: nat) {
    units as real * Value(price) >= Value(fiat) * Pow10(decimals) as real
  }

  // CryptoUnits is the least count of smallest units that covers the fiat price, so the
  // merchant is never short and the buyer is charged less than one unit too much.
  lemma UnitsAreLeast(fiat: Rat, price: Rat, decimals: nat, m: int)
    requires price.num > 0
    ensures m >= CryptoUnits(fiat, price, decimals) <==> Covers(m, fiat, price, decimals)
  {
    hide CeilRat, Value, Mul, Quo, Pow10;
    var quotient := Quo(fiat, price);
    var scaled := Mul(quotient, Scale(decimals));
    QuoValue(fiat, price);
    MulValue(quotient, Scale(decimals));
    CeilIsCeiling(scaled, m);
    var p := Pow10(decimals) as real;
    ScaleValue(decimals);
    PositiveValue(price);
    RealMulMonotone(m as real, Value(scaled), Value(price));
    CancelQuotient(Value(fiat), Value(price), p);
  }

  lemma ScaleValue(decimals: nat)
    ensures Value(Scale(decimals)) == Pow10(decimals) as real
  {
  }

  lemma PositiveValue(r: Rat)
    requires r.num > 0
    ensures Value(r) > 0.0
  {
  }

  lemma CancelQuotient(f: real, p: real, s: real)
    requires p > 0.0
    ensures (f / p * s) * p == f * s
  {
  }

  lemma QuoValue(a: Rat, b: Rat)
    requires b.num > 0
    ensures Value(Quo(a, b)) == Value(a) / Value(b)
  {
  }

  lemma MulValue(a: Rat, b: Rat)
    ensures Value(Mul(a, b)) == Value(a) * Value(b)
  {
  }

  lemma AddValue(a: Rat, b: Rat)
    ensures Value(Add(a, b)) == Value(a) + Value(b)
  {
  }

  // A dearer purchase never costs fewer units, a dearer coin never more, and splitting a
  // price into two invoices never saves a unit.
  lemma UnitsMonotone(f: Rat, g: Rat, p: Rat, q: Rat, decimals: nat)
    requires p.num > 0 && q.num > 0
    requires Value(f) <= Value(g) && Value(q) <= Value(p)
    requires g.num >= 0
    ensures CryptoUnits(f, p, decimals) <= CryptoUnits(g, q, decimals)
  {
    hide Value, CryptoUnits, Pow10;
    var m := CryptoUnits(g, q, decimals);
    NonNegativeValue(g);
    UnitsAreLeast(g, q, decimals, m);
    UnitsAreLeast(f, p, decimals, m);
    PositiveValue(q);
    CoverageMonotone(m as real, Value(f), Value(g), Value(p), Value(q), Pow10(decimals) as real);
  }

  lemma NonNegativeValue(r: Rat)
    requires r.num >= 0
    ensures Value(r) >= 0.0
  {
  }

  lemma CoverageMonotone(m: real, f: real, g: real, p: real, q: real, s: real)
    requires f <= g && 0.0 <= g && 0.0 < q <= p && s > 0.0
    requires m * q >= g * s
    ensures m * p >= f * s
  {
  }

  lemma UnitsSubadditive(f: Rat, g: Rat, price: Rat, decimals: nat)
    requires price.num > 0
    ensures CryptoUnits(Add(f, g), price, decimals)
         <= CryptoUnits(f, price, decimals) + CryptoUnits(g, price, decimals)
  {
    hide Value, CryptoUnits, Pow10, Add;
    var m, n := CryptoUnits(f, price, decimals), CryptoUnits(g, price, decimals);
    UnitsAreLeast(f, price, decimals, m);
    UnitsAreLeast(g, price, decimals, n);
    UnitsAreLeast(Add(f, g), price, decimals, m + n);
    AddValue(f, g);
    var s, v := Pow10(decimals) as real, Value(price);
    Distribute(m as real, n as real, v);
    Distribute(Value(f), Value(g), s);
  }

  lemma Distribute(x: real, y: real, z: real)
    ensures (x + y) * z == x * z + y * z
  {
  }

  datatype RateError = NoRate | InvalidFiat

  // Oracle.CryptoAmount once the price is known; fiat is None when its text is no rational.
  function Convert(asset: Asset, price: Result<Price, RateError>, fiat: Option<Rat>): Result<Amount, RateError>
  {
    match price
    case Failure(e) => Failure(e)
    case Success(p) =>
      if fiat.None? || fiat.value.num <= 0 then Failure(InvalidFiat)
      else Success(Amount(asset, CryptoUnits(fiat.value, p, asset.decimals)))
  }

  // Conversion fails exactly without a price or a positive fiat amount.
  lemma ConvertSucceedsIff(asset: Asset, price: Result<Price, RateError>, fiat: Option<Rat>)
    ensures Convert(asset, price, fiat).Success? <==> price.Success? && fiat.Some? && fiat.value.num > 0
    ensures price.Success? && Convert(asset, price, fiat).Failure? ==>
              Convert(asset, price, fiat) == Failure(InvalidFiat)
    ensures price.Failure? ==> Convert(asset, price, fiat) == Failure(price.error)
  {
  }

  // A converted invoice asks for at least one smallest unit.
  lemma ConvertedIsPositive(asset: Asset, price: Result<Price, RateError>, fiat: Option<Rat>)
    ensures var r := Convert(asset, price, fiat);
            r.Success? ==> r.value.asset == asset && r.value.units >= 1
  {
    hide CryptoUnits, Covers;
    if price.Success? && fiat.Some? && fiat.value.num > 0 {
      NothingCoversNothing(fiat.value, price.value, asset.decimals);
      UnitsAreLeast(fiat.value, price.value, asset.decimals, 0);
    }
  }

  lemma NothingCoversNothing(fiat: Rat, price: Rat, decimals: nat)
    requires fiat.num > 0
    ensures !Covers(0, fiat, price, decimals)
  {
    PositiveValue(fiat);
    hide Value, Pow10;
    PositiveProduct(Value(fiat), Pow10(decimals) as real);
  }

  lemma PositiveProduct(x: real, y: real)
    requires x > 0.0 && y > 0.0
    ensures x * y > 0.0
  {
  }

  // ---------- the oracle ----------

  datatype Answer = Priced(price: Rat) | Unavailable

  type Provider = (Asset, string) -> Answer

  // One call of Oracle.price: what was asked, the providers as they then were, and what
  // the clock said at the cache lookup and when a fetched price was stored.
  datatype PriceCall = PriceCall(asset: Asset, fiat: string, providers: seq<Provider>, lookupAt: int, storedAt: int)

  datatype CacheEntry = CacheEntry(price: Price, at: int)

  function LowerChar(c: char): char {
    if 'A' <= c <= 'Z' then (c as int + 32) as char else c
  }

  function Lower(s: string): string { seq(|s|, i requires 0 <= i < |s| => LowerChar(s[i])) }

  predicate IsUpper(c: char) { 'A' <= c <= 'Z' }

  // The same letter, up to ASCII case.
  predicate SameLetter(a: char, b: char) {
    a == b || (IsUpper(a) && b as int == a as int + 32) || (IsUpper(b) && a as int == b as int + 32)
  }

  ghost predicate SameIgnoringCase(a: string, b: string) {
    |a| == |b| && forall i :: 0 <= i < |a| ==> SameLetter(a[i], b[i])
  }

  // The text is the other with its capitals in lower case.
  ghost predicate IsLowerOf(lower: string, s: string) {
    SameIgnoringCase(lower, s) && forall c :: c in lower ==> !IsUpper(c)
  }

  // There is only one such text.
  lemma LowerMeaning(s: string, lower: string)
    ensures lower == Lower(s) <==> IsLowerOf(lower, s)
  {
    var t := Lower(s);
    forall i | 0 <= i < |s|
      ensures SameLetter(t[i], s[i]) && !IsUpper(t[i])
    {
    }
    if IsLowerOf(lower, s) {
      forall i | 0 <= i < |s|
        ensures lower[i] == t[i]
      {
        assert lower[i] in lower;
      }
    }
  }

  // So two texts have the same lower case exactly when they differ in case only.
  lemma SameLowerIff(a: string, b: string)
    ensures Lower(a) == Lower(b) <==> SameIgnoringCase(a, b)
  {
    LowerMeaning(a, Lower(a));
    LowerMeaning(b, Lower(b));
    if Lower(a) == Lower(b) {
      forall i | 0 <= i < |a|
        ensures SameLetter(a[i], b[i])
      {
        assert SameLetter(Lower(a)[i], a[i]) && SameLetter(Lower(b)[i], b[i]);
        assert Lower(a)[i] == LowerChar(a[i]) && Lower(b)[i] == LowerChar(b[i]);
      }
    }
  }

  function CacheKey(symbol: string, fiat: string): string { symbol + "/" + fiat }

  // Keys of symbols without a slash determine symbol and currency.
  lemma CacheKeyInjective(s: string, f: string, t: string, g: string)
    requires '/' !in s && '/' !in t
    requires CacheKey(s, f) == CacheKey(t, g)
    ensures s == t && f == g
  {
    CutAt(s, '/', f);
    CutAt(t, '/', g);
  }

  // The price of the first provider that answers with a positive one.
  function FirstPositive(providers: seq<Provider>, asset: Asset, fiat: string): (r: Option<Price>)
    ensures r.None? <==> forall i :: 0 <= i < |providers| ==> !Good(providers[i](asset, fiat))
    ensures r.Some? ==> exists i :: IsFirstGood(providers, asset, fiat, i) && r.value == providers[i](asset, fiat).price
  {
    if providers == [] then None
    else if Good(providers[0](asset, fiat)) then
      assert IsFirstGood(providers, asset, fiat, 0);
      Some(providers[0](asset, fiat).price)
    else
      var rest := providers[1..];
      assert forall i :: 1 <= i < |providers| ==> providers[i] == rest[i - 1];
      assert forall i :: IsFirstGood(rest, asset, fiat, i) ==> IsFirstGood(providers, asset, fiat, i + 1);
      FirstPositive(rest, asset, fiat)
  }

  predicate IsFirstGood(providers: seq<Provider>, asset: Asset, fiat: string, i: int) {
    && 0 <= i < |providers|
    && Good(providers[i](asset, fiat))
    && forall j :: 0 <= j < i ==> !Good(providers[j](asset, fiat))
  }

  predicate Good(a: Answer) { a.Priced? && a.price.num > 0 }

  function CallKey(call: PriceCall): string { CacheKey(call.asset.symbol, Lower(call.fiat)) }

  function Fetched(call: PriceCall): Option<Price> {
    FirstPositive(call.providers, call.asset, Lower(call.fiat))
  }

  predicate Hit(cache: map<string, CacheEntry>, ttl: int, call: PriceCall) {
    var key := CallKey(call);
    key in cache && call.lookupAt - cache[key].at < ttl
  }

  function CacheAfter(cache: map<string, CacheEntry>, ttl: int, call: PriceCall): map<string, CacheEntry> {
    if Hit(cache, ttl, call) then cache
    else match Fetched(call)
      case None => cache
      case Some(price) => cache[CallKey(call) := CacheEntry(price, call.storedAt)]
  }

  // It fails exactly when there is no fresh entry and no provider has a positive price:
  // never a guess.
  function PriceResult(cache: map<string, CacheEntry>, ttl: int, call: PriceCall): (r: Result<Price, RateError>)
    ensures r.Failure? <==>
              && !Hit(cache, ttl, call)
              && forall i :: 0 <= i < |call.providers| ==> !Good(call.providers[i](call.asset, Lower(call.fiat)))
  {
    if Hit(cache, ttl, call) then Success(cache[CallKey(call)].price)
    else match Fetched(call)
      case None => Failure(NoRate)
      case Some(price) => Success(price)
  }

  class Oracle {
    const ttl: int
    var cache: map<string, CacheEntry>

    constructor (ttl: int)
      ensures cache == map[]
      ensures this.ttl > 0
      ensures this.ttl == if ttl > 0 then ttl else 60 * SECOND
    {
      this.ttl := if ttl <= 0 then MINUTE else ttl;
      cache := map[];
    }

    method Price(call: PriceCall) returns (r: Result<Price, RateError>)
      modifies this
      ensures r == PriceResult(old(cache), ttl, call)
      ensures cache == CacheAfter(old(cache), ttl, call)
    {
      var fiat := Lower(call.fiat);
      var key := CacheKey(call.asset.symbol, fiat);
      if key in cache && call.lookupAt - cache[key].at < ttl {
        return Success(cache[key].price);
      }
      var i := 0;
      while i < |call.providers|
        invariant 0 <= i <= |call.providers|
        invariant cache == old(cache)
        invariant FirstPositive(call.providers[i..], call.asset, fiat) == Fetched(call)
      {
        var answer := call.providers[i](call.asset, fiat);
        assert call.providers[i..][1..] == call.providers[i + 1..];
        i := i + 1;
        if answer.Unavailable? {
          continue;
        }
        if answer.price.num <= 0 {
          continue;
        }
        cache := cache[key := CacheEntry(answer.price, call.storedAt)];
        return Success(answer.price);
      }
      r := Failure(NoRate);
    }

    method CryptoAmount(call: PriceCall, fiat: Option<Rat>) returns (r: Result<Amount, RateError>)
      modifies this
      ensures cache == CacheAfter(old(cache), ttl, call)
      ensures r == Convert(call.asset, PriceResult(old(cache), ttl, call), fiat)
      ensures r.Success? ==> r.value.asset == call.asset && r.value.units >= 1
    {
      var price := Price(call);
      ConvertedIsPositive(call.asset, price, fiat);
      if price.Failure? {
        return Failure(price.error);
      }
      if fiat.None? || fiat.value.num <= 0 {
        return Failure(InvalidFiat);
      }
      r := Success(Amount(call.asset, CryptoUnits(fiat.value, price.value, call.asset.decimals)));
    }
  }

  // The cache after a run of calls on a new oracle.
  function CacheRun(ttl: int, calls: seq<PriceCall>): map<string, CacheEntry> {
    if calls == [] then map[]
    else CacheAfter(CacheRun(ttl, calls[..|calls| - 1]), ttl, calls[|calls| - 1])
  }

  ghost predicate MonotoneClock(calls: seq<PriceCall>) {
    && (forall i :: 0 <= i < |calls| ==> calls[i].lookupAt <= calls[i].storedAt)
    && (forall i, j :: 0 <= i < j < |calls| ==> calls[i].storedAt <= calls[j].lookupAt)
  }

  ghost predicate PlainSymbols(calls: seq<PriceCall>) {
    forall i :: 0 <= i < |calls| ==> '/' !in calls[i].asset.symbol
  }

  // The call asked its providers in turn, for the currency in lower case, and the first
  // positive price was this.
  ghost predicate Obtained(call: PriceCall, price: Price) {
    exists asked: string, k: int ::
      && IsLowerOf(asked, call.fiat) && IsFirstGood(call.providers, call.asset, asked, k)
      && price == call.providers[k](call.asset, asked).price
  }

  lemma FetchedIsObtained(call: PriceCall)
    ensures Fetched(call).Some? ==> Obtained(call, Fetched(call).value)
  {
    LowerMeaning(call.fiat, Lower(call.fiat));
  }

  // calls[j] obtained this price for the symbol that `call` asks about and for its currency,
  // up to case.
  ghost predicate Source(calls: seq<PriceCall>, j: nat, call: PriceCall, price: Price) {
    && j < |calls|
    && calls[j].asset.symbol == call.asset.symbol
    && SameIgnoringCase(calls[j].fiat, call.fiat)
    && Obtained(calls[j], price)
  }

  lemma {:induction false} CacheEntriesHaveSource(ttl: int, calls: seq<PriceCall>, key: string) returns (j: nat)
    requires key in CacheRun(ttl, calls)
    ensures j < |calls| && CallKey(calls[j]) == key
    ensures Fetched(calls[j]).Some?
    ensures CacheRun(ttl, calls)[key] == CacheEntry(Fetched(calls[j]).value, calls[j].storedAt)
  {
    var n := |calls| - 1;
    var before := CacheRun(ttl, calls[..n]);
    if key in before && CacheRun(ttl, calls)[key] == before[key] {
      j := CacheEntriesHaveSource(ttl, calls[..n], key);
    } else {
      j := n;
    }
  }

  // In every run with a monotone clock, a price the oracle returns was fetched for that
  // symbol and that currency from the first provider with a positive answer: by this call,
  // or by an earlier one less than the TTL ago.
  lemma EveryPriceIsFresh(ttl: int, calls: seq<PriceCall>, call: PriceCall) returns (j: nat)
    requires MonotoneClock(calls + [call]) && PlainSymbols(calls + [call])
    ensures var r := PriceResult(CacheRun(ttl, calls), ttl, call);
            r.Success? ==>
              && Source(calls + [call], j, call, r.value)
              && (j < |calls| ==> 0 <= call.lookupAt - calls[j].storedAt < ttl)
  {
    hide Lower, SameIgnoringCase, Obtained, Fetched;
    j := |calls|;
    var all := calls + [call];
    assert all[j] == call;
    FetchedIsObtained(call);
    SameLowerIff(call.fiat, call.fiat);
    var cache := CacheRun(ttl, calls);
    if Hit(cache, ttl, call) {
      j := CacheEntriesHaveSource(ttl, calls, CallKey(call));
      assert all[j] == calls[j];
      CacheKeyInjective(calls[j].asset.symbol, Lower(calls[j].fiat), call.asset.symbol, Lower(call.fiat));
      SameLowerIff(calls[j].fiat, call.fiat);
      FetchedIsObtained(calls[j]);
    }
  }

  // A price that was obtained is kept: until the TTL has passed a call for the same symbol
  // and currency, in whatever case, gets it without its providers being asked.
  lemma ObtainedPriceIsKept(cache: map<string, CacheEntry>, ttl: int, call: PriceCall, later: PriceCall)
    requires !Hit(cache, ttl, call) && Fetched(call).Some?
    requires later.asset.symbol == call.asset.symbol && SameIgnoringCase(later.fiat, call.fiat)
    requires later.lookupAt - call.storedAt < ttl
    ensures PriceResult(cache, ttl, call) == Success(Fetched(call).value)
    ensures PriceResult(CacheAfter(cache, ttl, call), ttl, later) == Success(Fetched(call).value)
    ensures CacheAfter(CacheAfter(cache, ttl, call), ttl, later) == CacheAfter(cache, ttl, call)
  {
    hide Fetched, SameIgnoringCase;
    SameLowerIff(later.fiat, call.fiat);
  }
}
