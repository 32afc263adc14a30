/** The CryptoTracker component: the asset list fetched from a market API,
    the watchlist the star buttons toggle, the searched and sorted view of the
    list, and the market statistics computed from each fetched list.

    JavaScript numbers are modelled as `real` (exact, never NaN) except for
    the one division whose divisor can be 0, whose result is a `JsNumber`. */
module CryptoTracker {
  import opened Seqs
  import opened Text

  /** One entry of the market API's response (`CryptoData`). */
  datatype Asset = Asset(
    id: string,
    name: string,
    symbol: string,
    currentPrice: real,
    change24h: real,
    marketCap: real,
    image: string,
    rank: int,
    totalVolume: real)

  /* ---------------------------------------------------------------------
     Watchlist
     --------------------------------------------------------------------- */

  function IsNot(id: string): string -> bool
  {
    (x: string) => x != id
  }

  /** `addToWatchlist(id)` on the previous list: drop every occurrence of `id`
      when there is one, otherwise append `id`. */
  function Toggle(w: seq<string>, id: string): seq<string>
  {
    if id in w then Filter(IsNot(id), w) else w + [id]
  }

  /** A toggle flips whether `id` is watched and leaves every other id as it was. */
  lemma ToggleMembership(w: seq<string>, id: string)
    ensures id in Toggle(w, id) <==> id !in w
    ensures forall x :: x != id ==> (x in Toggle(w, id) <==> x in w)
  {
    FilterCounts(IsNot(id), w);
  }

  /** The ids other than `id` keep their order (and their number). */
  lemma ToggleKeepsOthers(w: seq<string>, id: string)
    ensures Filter(IsNot(id), Toggle(w, id)) == Filter(IsNot(id), w)
  {
    if id in w {
      FilterFilter(IsNot(id), IsNot(id), IsNot(id), w);
    } else {
      FilterConcat(IsNot(id), w, [id]);
      assert Filter(IsNot(id), [id]) == [];
    }
  }

  /** Starring an unwatched id and starring it again restores the list. */
  lemma ToggleAbsentTwice(w: seq<string>, id: string)
    requires id !in w
    ensures Toggle(Toggle(w, id), id) == w
  {
    FilterConcat(IsNot(id), w, [id]);
    assert Filter(IsNot(id), [id]) == [];
  }

  /** Unstarring a watched id and starring it again moves it, once, to the end. */
  lemma TogglePresentTwice(w: seq<string>, id: string)
    requires id in w
    ensures Toggle(Toggle(w, id), id) == Filter(IsNot(id), w) + [id]
  {
    FilterCounts(IsNot(id), w);
  }

  /** A duplicate-free watchlist stays duplicate-free. */
  lemma ToggleNoDup(w: seq<string>, id: string)
    requires NoDup(w)
    ensures NoDup(Toggle(w, id))
  {
    if id in w {
      FilterNoDup(IsNot(id), w);
    } else {
      var a := w + [id];
      forall i, j | 0 <= i < j < |a|
        ensures a[i] != a[j]
      {
        assert a[i] == w[i];
        if j == |w| {
          assert w[i] in w;
        }
      }
    }
  }

  /** The watchlist after the stars of `ids` are clicked in turn. */
  function ToggleAll(w: seq<string>, ids: seq<string>): seq<string>
    decreases |ids|
  {
    if ids == [] then w else ToggleAll(Toggle(w, ids[0]), ids[1..])
  }

  /** Any sequence of clicks keeps a duplicate-free watchlist duplicate-free. */
  lemma {:induction false} ToggleAllNoDup(w: seq<string>, ids: seq<string>)
    requires NoDup(w)
    ensures NoDup(ToggleAll(w, ids))
    decreases |ids|
  {
    if ids != [] {
      ToggleNoDup(w, ids[0]);
      ToggleAllNoDup(Toggle(w, ids[0]), ids[1..]);
    }
  }

  /** After any sequence of clicks an id is watched exactly when it was watched
      before or was clicked an odd number of times, but not both. */
  lemma {:induction false} ToggleAllParity(w: seq<string>, ids: seq<string>, x: string)
    ensures x in ToggleAll(w, ids) <==> (x in w) != (multiset(ids)[x] % 2 == 1)
    decreases |ids|
  {
    if ids != [] {
      var next := Toggle(w, ids[0]);
      assert ToggleAll(w, ids) == ToggleAll(next, ids[1..]);
      ToggleAllParity(next, ids[1..], x);
      ToggleMembership(w, ids[0]);
      CountOfHead(ids, x);
      if x == ids[0] {
        assert (x in next) == (x !in w);
        ParityStep(multiset(ids[1..])[x]);
      } else {
        assert (x in next) == (x in w);
      }
    }
  }

  /** One more toggle flips the parity. */
  lemma ParityStep(k: int)
    ensures ((k + 1) % 2 == 1) == (k % 2 != 1)
  {
  }

  lemma CountOfHead(ids: seq<string>, x: string)
    requires ids != []
    ensures multiset(ids)[x] == multiset(ids[1..])[x] + if ids[0] == x then 1 else 0
  {
    assert ids == [ids[0]] + ids[1..];
  }

  /* ---------------------------------------------------------------------
     Search and sort (`filteredData`)
     --------------------------------------------------------------------- */

  /** The search: the lowered term occurs in the lowered name or symbol. */
  function MatchesSearch(term: string): Asset -> bool
  {
    (a: Asset) => Contains(Lower(a.name), Lower(term)) || Contains(Lower(a.symbol), Lower(term))
  }

  /** An empty search keeps every asset. */
  lemma EmptySearchKeepsAll(data: seq<Asset>)
    ensures Filter(MatchesSearch(""), data) == data
  {
    forall i | 0 <= i < |data|
      ensures MatchesSearch("")(data[i])
    {
      ContainsEmpty(Lower(data[i].name));
    }
  }

  /** The comparator handed to `sort` for the selected key: descending by the
      24h change, the price or the market cap, otherwise ascending by rank. */
  function Compare(sortBy: string, a: Asset, b: Asset): real
  {
    if sortBy == "price_change_percentage_24h" then b.change24h - a.change24h
    else if sortBy == "current_price" then b.currentPrice - a.currentPrice
    else if sortBy == "market_cap" then b.marketCap - a.marketCap
    else (a.rank - b.rank) as real
  }

  /** The value each comparator orders ascending by. */
  function SortKey(sortBy: string, a: Asset): real
  {
    if sortBy == "price_change_percentage_24h" then -a.change24h
    else if sortBy == "current_price" then -a.currentPrice
    else if sortBy == "market_cap" then -a.marketCap
    else a.rank as real
  }

  /** Every comparator is the difference of the keys, so it is a consistent
      total preorder. */
  lemma CompareIsKeyDifference(sortBy: string, a: Asset, b: Asset)
    ensures Compare(sortBy, a, b) == SortKey(sortBy, a) - SortKey(sortBy, b)
  {
  }

  /** `s` is in the order the comparator asks for. */
  predicate Sorted(sortBy: string, s: seq<Asset>)
  {
    forall i, j :: 0 <= i < j < |s| ==> SortKey(sortBy, s[i]) <= SortKey(sortBy, s[j])
  }

  /** Inserts `x` in front of the first element it may precede. */
  function Insert(sortBy: string, x: Asset, s: seq<Asset>): seq<Asset>
    decreases |s|
  {
    if s == [] || Compare(sortBy, x, s[0]) <= 0.0 then [x] + s
    else [s[0]] + Insert(sortBy, x, s[1..])
  }

  /** `sort` with the comparator, which JavaScript requires to be stable:
      each element is placed before the later ones it does not compare
      greater than. */
  function SortAssets(sortBy: string, s: seq<Asset>): seq<Asset>
    decreases |s|
  {
    if s == [] then [] else Insert(sortBy, s[0], SortAssets(sortBy, s[1..]))
  }

  lemma {:induction false} InsertPermutes(sortBy: string, x: Asset, s: seq<Asset>)
    ensures multiset(Insert(sortBy, x, s)) == multiset(s) + multiset{x}
    decreases |s|
  {
    if s != [] && Compare(sortBy, x, s[0]) > 0.0 {
      InsertPermutes(sortBy, x, s[1..]);
      assert s == [s[0]] + s[1..];
    }
  }

  /** Every element of `s` is at least `b` in the comparator's order. */
  predicate AllAtLeast(sortBy: string, b: Asset, s: seq<Asset>)
  {
    forall e :: e in s ==> SortKey(sortBy, b) <= SortKey(sortBy, e)
  }

  /** A lower bound of `s` and `x` bounds `Insert(x, s)`. */
  lemma InsertAtLeast(sortBy: string, b: Asset, x: Asset, s: seq<Asset>)
    requires AllAtLeast(sortBy, b, s) && SortKey(sortBy, b) <= SortKey(sortBy, x)
    ensures AllAtLeast(sortBy, b, Insert(sortBy, x, s))
  {
    InsertPermutes(sortBy, x, s);
    forall e | e in Insert(sortBy, x, s)
      ensures SortKey(sortBy, b) <= SortKey(sortBy, e)
    {
      assert e in multiset(s) + multiset{x};
    }
  }

  /** A lower bound of a sorted sequence may go in front of it. */
  lemma ConsSorted(sortBy: string, b: Asset, s: seq<Asset>)
    requires Sorted(sortBy, s) && AllAtLeast(sortBy, b, s)
    ensures Sorted(sortBy, [b] + s)
  {
    var r := [b] + s;
    forall i, j | 0 <= i < j < |r|
      ensures SortKey(sortBy, r[i]) <= SortKey(sortBy, r[j])
    {
      assert r[j] == s[j - 1];
      if i > 0 {
        assert r[i] == s[i - 1];
      }
    }
  }

  /** The tail of a sorted sequence is sorted and bounded by its head. */
  lemma SortedTail(sortBy: string, s: seq<Asset>)
    requires Sorted(sortBy, s) && s != []
    ensures Sorted(sortBy, s[1..]) && AllAtLeast(sortBy, s[0], s[1..])
  {
    forall e | e in s[1..]
      ensures SortKey(sortBy, s[0]) <= SortKey(sortBy, e)
    {
      var m :| 0 <= m < |s| - 1 && s[1..][m] == e;
      assert s[m + 1] == e;
    }
  }

  lemma {:induction false} InsertSorted(sortBy: string, x: Asset, s: seq<Asset>)
    requires Sorted(sortBy, s)
    ensures Sorted(sortBy, Insert(sortBy, x, s))
    decreases |s|
  {
    if s == [] || Compare(sortBy, x, s[0]) <= 0.0 {
      assert AllAtLeast(sortBy, x, s) by {
        if s != [] {
          SortedTail(sortBy, s);
        }
      }
      ConsSorted(sortBy, x, s);
    } else {
      SortedTail(sortBy, s);
      InsertSorted(sortBy, x, s[1..]);
      InsertAtLeast(sortBy, s[0], x, s[1..]);
      ConsSorted(sortBy, s[0], Insert(sortBy, x, s[1..]));
    }
  }

  /** The sorted list is a rearrangement of its input. */
  lemma {:induction false} SortAssetsPermutes(sortBy: string, s: seq<Asset>)
    ensures multiset(SortAssets(sortBy, s)) == multiset(s)
    decreases |s|
  {
    if s != [] {
      var rest := SortAssets(sortBy, s[1..]);
      SortAssetsPermutes(sortBy, s[1..]);
      InsertPermutes(sortBy, s[0], rest);
      assert s == [s[0]] + s[1..];
      assert multiset(s) == multiset(s[1..]) + multiset{s[0]};
    }
  }

  /** The sorted list is in the comparator's order. */
  lemma {:induction false} SortAssetsSorted(sortBy: string, s: seq<Asset>)
    ensures Sorted(sortBy, SortAssets(sortBy, s))
    decreases |s|
  {
    if s != [] {
      var rest := SortAssets(sortBy, s[1..]);
      SortAssetsSorted(sortBy, s[1..]);
      InsertSorted(sortBy, s[0], rest);
    }
  }

  /** Whether an asset's sort key is `v`. */
  function HasKey(sortBy: string, v: real): Asset -> bool
  {
    (a: Asset) => SortKey(sortBy, a) == v
  }

  /** `Insert` puts `x` ahead of every element with the same key. */
  lemma {:induction false} InsertStable(sortBy: string, v: real, x: Asset, s: seq<Asset>)
    ensures Filter(HasKey(sortBy, v), Insert(sortBy, x, s)) ==
      (if SortKey(sortBy, x) == v then [x] else []) + Filter(HasKey(sortBy, v), s)
    decreases |s|
  {
    var p := HasKey(sortBy, v);
    if s == [] || Compare(sortBy, x, s[0]) <= 0.0 {
      assert ([x] + s)[1..] == s;
    } else {
      InsertStable(sortBy, v, x, s[1..]);
      var r := Insert(sortBy, x, s);
      assert r[1..] == Insert(sortBy, x, s[1..]);
    }
  }

  /** The sort is stable: the assets sharing a key keep their relative order. */
  lemma {:induction false} SortAssetsStable(sortBy: string, v: real, s: seq<Asset>)
    ensures Filter(HasKey(sortBy, v), SortAssets(sortBy, s)) == Filter(HasKey(sortBy, v), s)
    decreases |s|
  {
    if s != [] {
      SortAssetsStable(sortBy, v, s[1..]);
      InsertStable(sortBy, v, s[0], SortAssets(sortBy, s[1..]));
    }
  }

  /** What each key's order means for the assets' own fields. */
  lemma SortedMeaning(sortBy: string, s: seq<Asset>, i: int, j: int)
    requires Sorted(sortBy, s) && 0 <= i < j < |s|
    ensures sortBy == "price_change_percentage_24h" ==> s[i].change24h >= s[j].change24h
    ensures sortBy == "current_price" ==> s[i].currentPrice >= s[j].currentPrice
    ensures sortBy == "market_cap" ==> s[i].marketCap >= s[j].marketCap
    ensures sortBy !in {"price_change_percentage_24h", "current_price", "market_cap"} ==>
      s[i].rank <= s[j].rank
  {
    assert SortKey(sortBy, s[i]) <= SortKey(sortBy, s[j]);
  }

  /** `filteredData`: the matching assets, sorted by the selected key. */
  function FilteredAssets(data: seq<Asset>, term: string, sortBy: string): seq<Asset>
  {
    SortAssets(sortBy, Filter(MatchesSearch(term), data))
  }

  /** The view holds each matching asset as often as the list does and nothing
      else, in the selected order; with an empty search it is a rearrangement
      of the whole list. */
  lemma FilteredAssetsCorrect(data: seq<Asset>, term: string, sortBy: string)
    ensures forall a :: (multiset(FilteredAssets(data, term, sortBy))[a] ==
      if MatchesSearch(term)(a) then multiset(data)[a] else 0)
    ensures Sorted(sortBy, FilteredAssets(data, term, sortBy))
    ensures term == "" ==> multiset(FilteredAssets(data, term, sortBy)) == multiset(data)
  {
    var kept := Filter(MatchesSearch(term), data);
    SortAssetsPermutes(sortBy, kept);
    SortAssetsSorted(sortBy, kept);
    FilterCounts(MatchesSearch(term), data);
    if term == "" {
      EmptySearchKeepsAll(data);
    }
  }

  /* ---------------------------------------------------------------------
     Market statistics
     --------------------------------------------------------------------- */

  /** A JavaScript number as far as one division can make it: a finite value,
      NaN (0 / 0) or an infinity (a non-zero value over 0). */
  datatype JsNumber = Finite(value: real) | NaN | Infinity(positive: bool)

  /** JavaScript's `/`. */
  function Divide(x: real, y: real): (r: JsNumber)
    ensures r.Finite? <==> y != 0.0
    ensures r.Finite? ==> r.value * y == x
    ensures r.NaN? <==> x == 0.0 && y == 0.0
    ensures r.Infinity? ==> y == 0.0 && x != 0.0 && r.positive == (x > 0.0)
  {
    if y != 0.0 then Finite(x / y)
    else if x == 0.0 then NaN
    else Infinity(x > 0.0)
  }

  /** JavaScript's `n * k` for a positive constant `k`. */
  function Scale(n: JsNumber, k: real): JsNumber
    requires k > 0.0
  {
    match n
    case Finite(v) => Finite(v * k)
    case NaN => NaN
    case Infinity(positive) => Infinity(positive)
  }

  datatype MarketStats = MarketStats(
    totalMarketCap: real,
    totalVolume: real,
    marketCapChange: real,
    dominance: JsNumber)

  const CapOf: Asset -> real := (a: Asset) => a.marketCap

  const VolumeOf: Asset -> real := (a: Asset) => a.totalVolume

  const IsBitcoin: Asset -> bool := (a: Asset) => a.id == "bitcoin"

  /** The statistics `fetchCryptoData` computes from a fetched list. The 24h
      change is read with `|| 0`, which gives 0 for a change of 0 as well. */
  function ComputeStats(data: seq<Asset>): MarketStats
  {
    var total := SumBy(CapOf, data);
    var btc := Find(IsBitcoin, data);
    MarketStats(
      total,
      SumBy(VolumeOf, data),
      if btc.Some? then btc.value.change24h else 0.0,
      if btc.Some? then Scale(Divide(btc.value.marketCap, total), 100.0) else Finite(0.0))
  }

  /** An empty list gives all-zero statistics. */
  lemma StatsOfEmpty()
    ensures ComputeStats([]) == MarketStats(0.0, 0.0, 0.0, Finite(0.0))
  {
  }

  /** Without a bitcoin entry the change and the dominance are 0. */
  lemma StatsWithoutBitcoin(data: seq<Asset>)
    requires forall i :: 0 <= i < |data| ==> data[i].id != "bitcoin"
    ensures ComputeStats(data).marketCapChange == 0.0
    ensures ComputeStats(data).dominance == Finite(0.0)
  {
  }

  /** With a bitcoin entry, the first one supplies the change, and its share of
      the total market cap, in percent, is the dominance; a total of 0 makes
      the dominance NaN or infinite. */
  lemma StatsWithBitcoin(data: seq<Asset>, i: int)
    requires IsFirst(IsBitcoin, data, i)
    ensures ComputeStats(data).marketCapChange == data[i].change24h
    ensures ComputeStats(data).totalMarketCap != 0.0 ==>
      ComputeStats(data).dominance == Finite(data[i].marketCap / ComputeStats(data).totalMarketCap * 100.0)
    ensures ComputeStats(data).totalMarketCap == 0.0 ==>
      ComputeStats(data).dominance.NaN? || ComputeStats(data).dominance.Infinity?
  {
    var btc := Find(IsBitcoin, data);
    var k :| IsFirst(IsBitcoin, data, k) && data[k] == btc.value;
    FirstIsUnique(IsBitcoin, data, i, k);
  }

  /** Only one position is the first to satisfy a predicate. */
  lemma FirstIsUnique<T>(p: T -> bool, s: seq<T>, i: int, k: int)
    requires IsFirst(p, s, i) && IsFirst(p, s, k)
    ensures i == k
  {
  }

  /** With non-negative market caps and a bitcoin entry, the dominance is a
      percentage between 0 and 100, or NaN when every cap is 0. */
  lemma DominanceIsPercentage(data: seq<Asset>)
    requires forall a :: a in data ==> 0.0 <= a.marketCap
    requires exists i :: 0 <= i < |data| && data[i].id == "bitcoin"
    ensures ComputeStats(data).totalMarketCap == 0.0 ==> ComputeStats(data).dominance == NaN
    ensures ComputeStats(data).totalMarketCap != 0.0 ==>
      ComputeStats(data).dominance.Finite? && 0.0 <= ComputeStats(data).dominance.value <= 100.0
  {
    var btc := Find(IsBitcoin, data);
    var k :| IsFirst(IsBitcoin, data, k) && data[k] == btc.value;
    var total := SumBy(CapOf, data);
    assert forall a :: a in data ==> 0.0 <= CapOf(a);
    assert data[k] in data;
    assert 0.0 <= btc.value.marketCap <= total;
    if total != 0.0 {
      ShareAtMostOne(btc.value.marketCap, total);
    }
  }

  /** A part of a positive whole is a share between 0 and 1. */
  lemma ShareAtMostOne(part: real, whole: real)
    requires 0.0 <= part <= whole && whole > 0.0
    ensures 0.0 <= part / whole <= 1.0
  {
    var q := part / whole;
    assert q * whole == part;
  }

  /** A two-asset market: bitcoin with cap 1000 and volume 40, ether with cap
      500 and volume 10. */
  lemma TwoAssetMarket()
    ensures var data := [
        Asset("bitcoin", "Bitcoin", "btc", 60000.0, 2.5, 1000.0, "", 1, 40.0),
        Asset("ethereum", "Ethereum", "eth", 3000.0, -1.0, 500.0, "", 2, 10.0)];
      ComputeStats(data) == MarketStats(1500.0, 50.0, 2.5, Finite(200.0 / 3.0))
  {
    var data := [
      Asset("bitcoin", "Bitcoin", "btc", 60000.0, 2.5, 1000.0, "", 1, 40.0),
      Asset("ethereum", "Ethereum", "eth", 3000.0, -1.0, 500.0, "", 2, 10.0)];
    assert data[..1][..0] == [];
    assert data[..|data| - 1] == data[..1];
    assert SumBy(CapOf, data) == 1500.0;
    assert SumBy(VolumeOf, data) == 50.0;
    assert IsFirst(IsBitcoin, data, 0);
    StatsWithBitcoin(data, 0);
  }

  /* ---------------------------------------------------------------------
     The component
     --------------------------------------------------------------------- */

  /** The state of one CryptoTracker component. */
  class Tracker {
    var cryptoData: seq<Asset>
    var marketStats: Option<MarketStats>
    var searchTerm: string
    var sortBy: string
    var watchlist: seq<string>

    /** The watchlist never holds an id twice. */
    ghost predicate Valid()
      reads this`watchlist
    {
      NoDup(watchlist)
    }

    constructor ()
      ensures Valid()
      ensures cryptoData == [] && marketStats == None
      ensures searchTerm == "" && sortBy == "market_cap_rank" && watchlist == []
    {
      cryptoData, marketStats := [], None;
      searchTerm, sortBy, watchlist := "", "market_cap_rank", [];
    }

    /** `addToWatchlist(cryptoId)`. */
    method AddToWatchlist(cryptoId: string)
      requires Valid()
      modifies this
      ensures Valid()
      ensures watchlist == Toggle(old(watchlist), cryptoId)
      ensures cryptoData == old(cryptoData) && marketStats == old(marketStats)
      ensures searchTerm == old(searchTerm) && sortBy == old(sortBy)
    {
      ToggleNoDup(watchlist, cryptoId);
      watchlist := Toggle(watchlist, cryptoId);
    }

    /** `fetchCryptoData` once the request has settled: `None` when the request
        or the JSON decoding failed, which leaves the state as it was;
        otherwise the fetched list and its statistics replace the old ones. */
    method Refresh(response: Option<seq<Asset>>)
      modifies this
      ensures response.None? ==> cryptoData == old(cryptoData) && marketStats == old(marketStats)
      ensures response.Some? ==>
        cryptoData == response.value && marketStats == Some(ComputeStats(response.value))
      ensures searchTerm == old(searchTerm) && sortBy == old(sortBy) && watchlist == old(watchlist)
    {
      if response.Some? {
        cryptoData := response.value;
        marketStats := Some(ComputeStats(response.value));
      }
    }

    /** The search box's change handler. */
    method SetSearchTerm(term: string)
      modifies this`searchTerm
      ensures searchTerm == term
    {
      searchTerm := term;
    }

    /** The sort selector's change handler. */
    method SetSortBy(key: string)
      modifies this`sortBy
      ensures sortBy == key
    {
      sortBy := key;
    }

    /** `filteredData`, derived from the state on every render without
        changing it. */
    function FilteredData(): (r: seq<Asset>)
      reads this
      ensures forall a :: multiset(r)[a] == if MatchesSearch(searchTerm)(a) then multiset(cryptoData)[a] else 0
      ensures Sorted(sortBy, r)
    {
      FilteredAssetsCorrect(cryptoData, searchTerm, sortBy);
      FilteredAssets(cryptoData, searchTerm, sortBy)
    }
  }
}
