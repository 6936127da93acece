// internal/invoice/memrepo.go: the in-memory repository.
module Repository {
  import opened Wrappers
  import opened Invoices

  const UINT32: nat := 0x1_0000_0000

  datatype RepoError = NotFound

  // ---------- what the listings return ----------

  // The open invoices' identifiers, in insertion order.
  function OpenIds(order: seq<string>, store: map<string, Record>): (ids: seq<string>)
    requires forall id :: id in order ==> id in store
    ensures forall id :: id in ids <==> id in order && !store[id].status.IsTerminal()
  {
    if order == [] then []
    else
      var rest := OpenIds(order[..|order| - 1], store);
      var last := order[|order| - 1];
      if store[last].status.IsTerminal() then rest else rest + [last]
  }

  ghost predicate Distinct<T>(s: seq<T>) { forall i, j :: 0 <= i < j < |s| ==> s[i] != s[j] }

  lemma {:induction false} OpenIdsDistinct(order: seq<string>, store: map<string, Record>)
    requires forall id :: id in order ==> id in store
    requires Distinct(order)
    ensures Distinct(OpenIds(order, store))
  {
    if order != [] {
      var n := |order| - 1;
      OpenIdsDistinct(order[..n], store);
      assert order[n] !in order[..n];
    }
  }

  // They keep the order of insertion.
  lemma {:induction false} OpenIdsInOrder(order: seq<string>, store: map<string, Record>, i: nat, j: nat)
    requires forall id :: id in order ==> id in store
    requires i < j < |OpenIds(order, store)|
    ensures var ids := OpenIds(order, store);
            exists p, q :: 0 <= p < q < |order| && order[p] == ids[i] && order[q] == ids[j]
  {
    var n := |order| - 1;
    var before := OpenIds(order[..n], store);
    if j < |before| {
      OpenIdsInOrder(order[..n], store, i, j);
    } else {
      assert before[i] in before;
      var p :| 0 <= p < n && order[..n][p] == before[i];
      assert order[p] == before[i] && order[n] == OpenIds(order, store)[j];
    }
  }

  function ByMerchant(order: seq<string>, store: map<string, Record>, merchantId: string): seq<Record>
    requires forall id :: id in order ==> id in store
  {
    if order == [] then []
    else
      var rest := ByMerchant(order[..|order| - 1], store, merchantId);
      var last := store[order[|order| - 1]];
      if last.terms.merchantId == merchantId then rest + [last] else rest
  }

  // Each record of the merchant once, nobody else's at all.
  lemma {:induction false} ByMerchantCounts(order: seq<string>, store: map<string, Record>, merchantId: string,
                                           r: Record)
    requires Distinct(order)
    requires forall id :: id in order ==> id in store && store[id].terms.id == id
    ensures multiset(ByMerchant(order, store, merchantId))[r]
         == if r.terms.id in order && store[r.terms.id] == r && r.terms.merchantId == merchantId then 1 else 0
  {
    if order != [] {
      var n := |order| - 1;
      ByMerchantCounts(order[..n], store, merchantId, r);
      assert order == order[..n] + [order[n]];
      assert order[n] !in order[..n];
    }
  }

  // And in insertion order.
  lemma {:induction false} ByMerchantInOrder(order: seq<string>, store: map<string, Record>, merchantId: string,
                                            i: nat, j: nat)
    requires forall id :: id in order ==> id in store && store[id].terms.id == id
    requires i < j < |ByMerchant(order, store, merchantId)|
    ensures var mine := ByMerchant(order, store, merchantId);
            exists p, q :: 0 <= p < q < |order| && order[p] == mine[i].terms.id && order[q] == mine[j].terms.id
  {
    var n := |order| - 1;
    var before := ByMerchant(order[..n], store, merchantId);
    if j < |before| {
      ByMerchantInOrder(order[..n], store, merchantId, i, j);
    } else {
      ByMerchantFrom(order[..n], store, merchantId, i);
      var p :| 0 <= p < n && order[..n][p] == before[i].terms.id;
      assert order[p] == before[i].terms.id && order[n] == store[order[n]].terms.id;
    }
  }

  lemma {:induction false} ByMerchantFrom(order: seq<string>, store: map<string, Record>, merchantId: string, i: nat)
    requires forall id :: id in order ==> id in store && store[id].terms.id == id
    requires i < |ByMerchant(order, store, merchantId)|
    ensures exists p :: 0 <= p < |order| && order[p] == ByMerchant(order, store, merchantId)[i].terms.id
  {
    var n := |order| - 1;
    if i < |ByMerchant(order[..n], store, merchantId)| {
      ByMerchantFrom(order[..n], store, merchantId, i);
    } else {
      assert order[n] == store[order[n]].terms.id;
    }
  }

  // ---------- newest first, stably ----------

  function Insert(r: Record, s: seq<Record>): seq<Record> {
    if s != [] && s[0].terms.createdAt > r.terms.createdAt
    then [s[0]] + Insert(r, s[1..])
    else [r] + s
  }

  // sort.SliceStable by creation time, newest first.
  function NewestFirst(rs: seq<Record>): seq<Record> {
    if rs == [] then [] else Insert(rs[0], NewestFirst(rs[1..]))
  }

  ghost predicate Sorted(s: seq<Record>) {
    forall i, j :: 0 <= i < j < |s| ==> s[i].terms.createdAt >= s[j].terms.createdAt
  }

  // The records created at one instant, in their order.
  function At(s: seq<Record>, t: int): seq<Record> {
    if s == [] then []
    else if s[0].terms.createdAt == t then [s[0]] + At(s[1..], t)
    else At(s[1..], t)
  }

  lemma {:induction false} InsertKeepsAll(r: Record, s: seq<Record>)
    ensures multiset(Insert(r, s)) == multiset{r} + multiset(s)
  {
    if s != [] && s[0].terms.createdAt > r.terms.createdAt {
      InsertKeepsAll(r, s[1..]);
      assert s == [s[0]] + s[1..];
    }
  }

  // Nothing in a list is newer than the bound.
  ghost predicate AtMost(s: seq<Record>, bound: int) {
    forall i :: 0 <= i < |s| ==> s[i].terms.createdAt <= bound
  }

  lemma {:induction false} InsertBounded(r: Record, s: seq<Record>, bound: int)
    requires AtMost(s, bound) && r.terms.createdAt <= bound
    ensures AtMost(Insert(r, s), bound)
  {
    if s != [] && s[0].terms.createdAt > r.terms.createdAt {
      InsertBounded(r, s[1..], bound);
    }
  }

  lemma {:induction false} InsertSorts(r: Record, s: seq<Record>)
    requires Sorted(s)
    ensures Sorted(Insert(r, s))
  {
    if s != [] && s[0].terms.createdAt > r.terms.createdAt {
      InsertSorts(r, s[1..]);
      InsertBounded(r, s[1..], s[0].terms.createdAt);
    }
  }

  lemma {:induction false} InsertIsStable(r: Record, s: seq<Record>, t: int)
    ensures At(Insert(r, s), t) == At([r] + s, t)
  {
    assert ([r] + s)[1..] == s;
    if s != [] && s[0].terms.createdAt > r.terms.createdAt {
      InsertIsStable(r, s[1..], t);
      assert ([r] + s[1..])[1..] == s[1..];
      assert Insert(r, s)[1..] == Insert(r, s[1..]);
    }
  }

  // The listing is newest first, holds what was to be listed, and keeps ties in insertion order.
  lemma {:induction false} NewestFirstSorts(rs: seq<Record>)
    ensures Sorted(NewestFirst(rs))
    ensures multiset(NewestFirst(rs)) == multiset(rs)
    ensures forall t :: At(NewestFirst(rs), t) == At(rs, t)
  {
    if rs != [] {
      NewestFirstSorts(rs[1..]);
      InsertSorts(rs[0], NewestFirst(rs[1..]));
      InsertKeepsAll(rs[0], NewestFirst(rs[1..]));
      assert rs == [rs[0]] + rs[1..];
      forall t
        ensures At(NewestFirst(rs), t) == At(rs, t)
      {
        InsertIsStable(rs[0], NewestFirst(rs[1..]), t);
        assert ([rs[0]] + NewestFirst(rs[1..]))[1..] == NewestFirst(rs[1..]);
      }
    }
  }

  lemma {:induction false} AtEmpty(s: seq<Record>, t: int)
    requires forall x :: x in s ==> x.terms.createdAt != t
    ensures At(s, t) == []
  {
    if s != [] {
      assert s[0] in s;
      AtEmpty(s[1..], t);
    }
  }

  lemma HeadsAgree(a: seq<Record>, b: seq<Record>)
    requires a != [] && Sorted(a) && Sorted(b)
    requires forall t :: At(a, t) == At(b, t)
    ensures b != [] && b[0].terms.createdAt >= a[0].terms.createdAt
  {
    var t := a[0].terms.createdAt;
    assert At(a, t) != [];
    if forall x :: x in b ==> x.terms.createdAt != t {
      AtEmpty(b, t);
      assert false;
    }
    var x :| x in b && x.terms.createdAt == t;
  }

  // Those properties leave no choice: there is only one such listing.
  lemma {:induction false} StableSortUnique(a: seq<Record>, b: seq<Record>)
    requires Sorted(a) && Sorted(b)
    requires forall t :: At(a, t) == At(b, t)
    ensures a == b
  {
    if a != [] {
      HeadsAgree(a, b);
    }
    if b != [] {
      HeadsAgree(b, a);
    }
    if a != [] {
      var t0 := a[0].terms.createdAt;
      assert At(a, t0)[0] == a[0] && At(b, t0)[0] == b[0];
      forall t
        ensures At(a[1..], t) == At(b[1..], t)
      {
        assert At(a, t) == At(b, t);
        if t == t0 {
          assert At(a, t)[1..] == At(a[1..], t) && At(b, t)[1..] == At(b[1..], t);
        }
      }
      StableSortUnique(a[1..], b[1..]);
      assert a == [a[0]] + a[1..] && b == [b[0]] + b[1..];
    }
  }

  // ---------- paging ----------

  function Page(all: seq<Record>, limit: int, offset: nat): seq<Record> {
    var rest := all[if offset > |all| then |all| else offset..];
    if 0 < limit < |rest| then rest[..limit] else rest
  }

  // The first n pages, one after the other.
  function Pages(all: seq<Record>, limit: nat, n: nat): seq<Record> {
    if n == 0 then [] else Pages(all, limit, n - 1) + Page(all, limit, (n - 1) * limit)
  }

  lemma {:induction false} PagesArePrefix(all: seq<Record>, limit: nat, n: nat)
    requires limit > 0
    ensures Pages(all, limit, n) == all[..if n * limit < |all| then n * limit else |all|]
  {
    if n > 0 {
      PagesArePrefix(all, limit, n - 1);
      OneMoreLimit(n, limit);
      NextPage(all, limit, (n - 1) * limit);
    }
  }

  lemma OneMoreLimit(n: nat, limit: nat)
    requires n > 0
    ensures n * limit == (n - 1) * limit + limit
  {
  }

  lemma NextPage(all: seq<Record>, limit: nat, from: nat)
    requires limit > 0
    ensures all[..if from < |all| then from else |all|] + Page(all, limit, from)
         == all[..if from + limit < |all| then from + limit else |all|]
  {
  }

  // Going through the pages until they run out lists each invoice of the merchant exactly
  // once, none of another merchant's, newest first with ties in insertion order.
  lemma PagesListEachOnce(order: seq<string>, store: map<string, Record>, merchantId: string, limit: nat, n: nat)
    requires Distinct(order)
    requires forall id :: id in order ==> id in store && store[id].terms.id == id
    requires limit > 0 && n * limit >= |ByMerchant(order, store, merchantId)|
    ensures var listed := Pages(NewestFirst(ByMerchant(order, store, merchantId)), limit, n);
            && Sorted(listed)
            && (forall t :: At(listed, t) == At(ByMerchant(order, store, merchantId), t))
            && (forall r :: multiset(listed)[r] ==
                  if r.terms.id in order && store[r.terms.id] == r && r.terms.merchantId == merchantId then 1 else 0)
  {
    var mine := ByMerchant(order, store, merchantId);
    var all := NewestFirst(mine);
    NewestFirstSorts(mine);
    assert |all| == |mine| by {
      assert |multiset(all)| == |multiset(mine)|;
    }
    PagesArePrefix(all, limit, n);
    assert all[..|all|] == all;
    forall r
      ensures multiset(all)[r] ==
        if r.terms.id in order && store[r.terms.id] == r && r.terms.merchantId == merchantId then 1 else 0
    {
      ByMerchantCounts(order, store, merchantId, r);
    }
  }

  // ---------- derivation indexes ----------

  // The per-merchant counter is a uint32.
  function NextCounter(counter: nat): nat { (counter + 1) % UINT32 }

  lemma NextCounterCounts(n: nat)
    ensures NextCounter(n % UINT32) == (n + 1) % UINT32
  {
  }

  // Two counts agree as uint32 exactly when a multiple of 2^32 lies between them.
  lemma SameRemainderIff(m: nat, n: nat, d: nat)
    requires m <= n && d > 0
    ensures m % d == n % d <==> (n - m) % d == 0
  {
    var k := n / d - m / d;
    assert n - m == k * d + (n % d - m % d);
    if (n - m) % d == 0 {
      var q := (n - m) / d;
      assert (q - k) * d == n % d - m % d;
      SmallMultiple(q - k, d);
    }
    if m % d == n % d {
      MultipleRemainder(k, d);
    }
  }

  lemma MultipleRemainder(k: int, d: nat)
    requires d > 0
    ensures (k * d) % d == 0
  {
    var q, r := (k * d) / d, (k * d) % d;
    assert (k - q) * d == r;
    SmallMultiple(k - q, d);
  }

  lemma SmallMultiple(q: int, d: int)
    requires -d < q * d < d
    ensures q == 0 && q * d == 0
  {
  }

  class MemRepository {
    var byID: map<string, Record>
    var counters: map<string, nat>
    var order: seq<string>

    // Every listed identifier is stored; kept by every method.
    ghost predicate Known()
      reads this
    {
      forall id :: id in order ==> id in byID
    }

    // With identifiers never reused, each is listed once and its record carries it.
    ghost predicate Valid()
      reads this
    {
      && Known()
      && Distinct(order)
      && (forall id :: id in byID ==> id in order && byID[id].terms.id == id)
      && (forall m :: m in counters ==> counters[m] < UINT32)
    }

    constructor ()
      ensures Valid() && byID == map[] && counters == map[] && order == []
    {
      byID, counters, order := map[], map[], [];
    }

    method Create(inv: Invoice)
      modifies this`byID, this`order
      ensures byID == old(byID)[inv.terms.id := inv.Value()]
      ensures order == old(order) + [inv.terms.id]
      ensures old(Known()) ==> Known()
      ensures old(Valid()) && inv.terms.id !in old(byID) ==> Valid()
    {
      byID := byID[inv.terms.id := inv.Value()];
      order := order + [inv.terms.id];
    }

    // The copy is a new object: nothing done to its fields reaches the repository.
    method Get(id: string) returns (r: Result<Invoice, RepoError>)
      ensures r.Success? <==> id in byID
      ensures r.Success? ==> fresh(r.value) && r.value.Value() == byID[id]
    {
      if id !in byID {
        return Failure(NotFound);
      }
      var cp := new Invoice(byID[id]);
      r := Success(cp);
    }

    method Update(inv: Invoice) returns (found: bool)
      modifies this`byID
      ensures found <==> inv.terms.id in old(byID)
      ensures byID == if found then old(byID)[inv.terms.id := inv.Value()] else old(byID)
      ensures old(Valid()) ==> Valid()
    {
      found := inv.terms.id in byID;
      if found {
        byID := byID[inv.terms.id := inv.Value()];
      }
    }

    method ListOpen() returns (open: seq<Invoice>)
      requires Known()
      ensures fresh(open) && Distinct(open)
      ensures var ids := OpenIds(order, byID);
              |open| == |ids| && forall i :: 0 <= i < |ids| ==> ids[i] in byID && open[i].Value() == byID[ids[i]]
    {
      open := [];
      var i := 0;
      while i < |order|
        invariant 0 <= i <= |order|
        invariant fresh(open) && Distinct(open)
        invariant var ids := OpenIds(order[..i], byID);
                  |open| == |ids| && forall k :: 0 <= k < |ids| ==> ids[k] in byID && open[k].Value() == byID[ids[k]]
      {
        assert order[..i + 1][..i] == order[..i];
        var inv := byID[order[i]];
        if !inv.status.IsTerminal() {
          var cp := new Invoice(inv);
          open := open + [cp];
        }
        i := i + 1;
      }
      assert order[..i] == order;
    }

    method ListByMerchant(merchantId: string, limit: int, offset: nat) returns (page: seq<Invoice>)
      requires Known()
      ensures fresh(page)
      ensures var records := Page(NewestFirst(ByMerchant(order, byID, merchantId)), limit, offset);
              |page| == |records| && forall i :: 0 <= i < |records| ==> page[i].Value() == records[i]
    {
      var all: seq<Record> := [];
      var i := 0;
      while i < |order|
        invariant 0 <= i <= |order|
        invariant all == ByMerchant(order[..i], byID, merchantId)
      {
        assert order[..i + 1][..i] == order[..i];
        var inv := byID[order[i]];
        if inv.terms.merchantId == merchantId {
          all := all + [inv];
        }
        i := i + 1;
      }
      assert order[..i] == order;
      all := NewestFirst(all);
      var from := if offset > |all| then |all| else offset;
      all := all[from..];
      if 0 < limit < |all| {
        all := all[..limit];
      }
      page := [];
      var k := 0;
      while k < |all|
        invariant 0 <= k <= |all| && |page| == k
        invariant fresh(page)
        invariant forall j :: 0 <= j < k ==> page[j].Value() == all[j]
      {
        var cp := new Invoice(all[k]);
        page := page + [cp];
        k := k + 1;
      }
    }

    method NextDerivationIndex(merchantId: string) returns (index: nat)
      modifies this`counters
      ensures index == if merchantId in old(counters) then old(counters)[merchantId] else 0
      ensures counters == old(counters)[merchantId := NextCounter(index)]
      ensures old(Valid()) ==> Valid()
    {
      index := if merchantId in counters then counters[merchantId] else 0;
      counters := counters[merchantId := NextCounter(index)];
    }
  }
}
