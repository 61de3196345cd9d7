/**
 * A data provider wrapped in the disk cache: historical requests are served
 * from the cache when it has them, otherwise fetched from the wrapped
 * provider and written to the cache; current prices always go to the
 * provider.
 */
module CachedProvider {
  import opened Common
  import opened Dates
  import opened Frames
  import opened Results
  import opened Cache

  /** One `get_historical` call made on the wrapped provider. */
  datatype Request = Request(ticker: string, start: Date, end: Date)

  /** The wrapped provider's answers, as functions of the request; a historical request may raise. */
  datatype Provider = Provider(historical: (string, Date, Date) -> Attempt<Option<StockData>>,
                               currentPrice: string -> Option<real>)

  /**
   * What the outside world contributes to one call: today's date, the clock,
   * and the size, success and deletion failures of the cache write it may make.
   */
  datatype Env = Env(today: Date, now: real, size: nat, writeOk: bool, undeletable: set<string>)

  /**
   * The answer of `get_historical` (or the error escaping it), the cache
   * directory afterwards and the provider calls made.
   */
  datatype Fetch = Fetch(result: Attempt<Option<StockData>>, dir: Dir, calls: seq<Request>)

  /**
   * `get_historical`. Neither the cache lookup nor the provider call is
   * guarded, so an error from either escapes; a provider error leaves the
   * directory as the lookup left it, and nothing is written.
   */
  function HistoricalSpec(p: Provider, cfg: CacheConfig, d: Dir, ticker: string, start: Date, end: Date,
                          bypass: bool, env: Env): (f: Fetch)
    requires WellFormed(d) && InRange(start) && InRange(end) && Valid(env.today)
    ensures WellFormed(f.dir)
  {
    var g := GetSpec(cfg, d, ticker, start, end, env.today, env.now, env.undeletable);
    if !bypass && g.value.Raised? then Fetch(Raised(g.value.message), g.dir, [])
    else if !bypass && g.Hit() then Fetch(Ok(Some(StockData(ticker, g.Frame()))), g.dir, [])
    else
      var d1 := if bypass then d else g.dir;
      assert WellFormed(d1) by {
        if !bypass {
          GetKeepsWellFormed(cfg, d, ticker, start, end, env.today, env.now, env.undeletable);
        }
      }
      var r := p.historical(ticker, start, end);
      var d2 := if r.Raised? || r.value.None? then d1
                else SetSpec(cfg, d1, ticker, start, end, r.value.value.data, env.size, env.now, env.writeOk, env.undeletable);
      Fetch(r, d2, [Request(ticker, start, end)])
  }

  lemma GetKeepsWellFormed(cfg: CacheConfig, d: Dir, ticker: string, start: Date, end: Date, today: Date, now: real,
                           undeletable: set<string>)
    requires WellFormed(d) && InRange(start) && InRange(end) && Valid(today)
    ensures WellFormed(GetSpec(cfg, d, ticker, start, end, today, now, undeletable).dir)
  {
  }

  class CachedDataProvider {
    const provider: Provider
    const cache: CacheManager
    /** The `get_historical` calls made on the wrapped provider so far. */
    var calls: seq<Request>

    constructor (provider: Provider, cache: CacheManager)
      ensures this.provider == provider && this.cache == cache && calls == []
    {
      this.provider := provider;
      this.cache := cache;
      calls := [];
    }

    method GetHistorical(ticker: string, start: PyDate, end: PyDate, bypass: bool, env: Env)
      returns (r: Attempt<Option<StockData>>)
      requires cache.Valid() && Valid(env.today)
      modifies this, cache
      ensures cache.Valid()
      ensures var f := HistoricalSpec(provider, cache.config, old(cache.State()), ticker, start, end, bypass, env);
        r == f.result && cache.State() == f.dir && calls == old(calls) + f.calls
    {
      if !bypass {
        var cached := cache.Get(ticker, start, end, env.today, env.now, env.undeletable);
        if cached.Raised? {
          return Raised(cached.message);
        }
        if cached.value.Some? {
          return Ok(Some(StockData(ticker, cached.value.value)));
        }
      }
      r := provider.historical(ticker, start, end);
      calls := calls + [Request(ticker, start, end)];
      if r.Ok? && r.value.Some? {
        cache.Set(ticker, start, end, r.value.value.data, env.size, env.now, env.writeOk, env.undeletable);
      }
    }

    /** `get_current_price`: handed to the provider; the cache is not consulted or changed. */
    method GetCurrentPrice(ticker: string) returns (price: Option<real>)
      ensures price == provider.currentPrice(ticker)
    {
      price := provider.currentPrice(ticker);
    }

    /** `get_historical_df`: the frame of a (non-bypassing) `get_historical`, whose errors escape. */
    method GetHistoricalDf(ticker: string, start: PyDate, end: PyDate, env: Env) returns (df: Attempt<Option<seq<Bar>>>)
      requires cache.Valid() && Valid(env.today)
      modifies this, cache
      ensures cache.Valid()
      ensures var f := HistoricalSpec(provider, cache.config, old(cache.State()), ticker, start, end, false, env);
        df == (match f.result
               case Raised(e) => Raised(e)
               case Ok(o) => Ok(if o.Some? then Some(o.value.data) else None))
        && cache.State() == f.dir && calls == old(calls) + f.calls
    {
      var r := GetHistorical(ticker, start, end, false, env);
      match r
      case Raised(e) =>
        df := Raised(e);
      case Ok(o) =>
        df := Ok(if o.Some? then Some(o.value.data) else None);
    }
  }

  /**
   * A cache hit, or an error from the cache lookup, answers without the
   * provider; a miss, or a bypass, calls the provider exactly once, and a
   * frame it returns is written to the cache under the request, while no
   * answer, or an error, writes nothing.
   */
  lemma ProviderCalledOnlyOnMiss(p: Provider, cfg: CacheConfig, d: Dir, ticker: string, start: Date, end: Date,
                                 bypass: bool, env: Env)
    requires WellFormed(d) && InRange(start) && InRange(end) && Valid(env.today)
    ensures var f := HistoricalSpec(p, cfg, d, ticker, start, end, bypass, env);
      var g := GetSpec(cfg, d, ticker, start, end, env.today, env.now, env.undeletable);
      (f.calls == [] <==> !bypass && (g.value.Raised? || g.Hit()))
      && (!bypass && g.value.Raised? ==> f.result == Raised(g.value.message) && f.dir == d)
      && (f.calls != [] ==> f.calls == [Request(ticker, start, end)] && f.result == p.historical(ticker, start, end))
      && (f.calls != [] && (f.result.Raised? || f.result.value.None?) ==> f.dir == (if bypass then d else g.dir))
      && (f.calls != [] && f.result.Ok? && f.result.value.Some? && cfg.enabled && env.writeOk ==>
            Key(ticker, start, end) in f.dir.files
            && f.dir.files[Key(ticker, start, end)] == Entry(env.size, env.now, Some(f.result.value.value.data)))
  {
  }

  /** Eviction only ever removes files; the files left are unchanged. */
  lemma EnforceOnlyRemoves(cfg: CacheConfig, d: Dir, undeletable: set<string>)
    requires WellFormed(d)
    ensures var d' := EnforceSpec(cfg, d, undeletable);
      forall n :: n in d'.files ==> n in d.files && d'.files[n] == d.files[n]
  {
  }

  /**
   * In a directory whose only file of `ticker` is the entry for `[start0, end0]`,
   * a fresh, readable entry answers every request it covers: itself when the
   * request is the same, otherwise the rows of the window.
   */
  lemma SoleFileServes(cfg: CacheConfig, d: Dir, ticker: string, start0: Date, end0: Date, data: seq<Bar>,
                       start: Date, end: Date, today: Date, now: real, undeletable: set<string>)
    requires cfg.enabled && WellFormed(d) && '_' !in ticker
    requires InRange(start0) && InRange(end0) && InRange(start) && InRange(end) && Valid(today)
    requires Key(ticker, start0, end0) in d.files && d.files[Key(ticker, start0, end0)].payload == Some(data)
    requires forall n :: n in d.files && MatchesGlob(n, ticker + "_") ==> n == Key(ticker, start0, end0)
    requires Covers(Span(start0, end0), start, end)
    requires !Expired(cfg, d.files[Key(ticker, start0, end0)].mtime, end0, today, now)
    ensures GetSpec(cfg, d, ticker, start, end, today, now, undeletable) ==
      Outcome(Ok(Some(if start == start0 && end == end0 then data else FilterWindow(data, start, end))), d)
  {
    var key0 := Key(ticker, start0, end0);
    if start != start0 || end != end0 {
      var key := Key(ticker, start, end);
      KeyParses(ticker, start, end);
      KeyParses(ticker, start0, end0);
      if key == key0 {
        KeyInjective(ticker, start, end, ticker, start0, end0);
      }
      assert key !in d.files;
      var names := Glob(d.listing, ticker + "_");
      assert key0 in names;
      ServesBySpan(key0, StemSpan(key0), start, end);
      assert Serves(key0, start, end);
      var sup := FirstSuperset(names, start, end);
      assert sup.Some? && sup.value.name == key0;
    }
  }

  /**
   * A fetch that misses on a directory with no file of `ticker` and gets a
   * frame leaves exactly one file of `ticker`: the frame, under its key.
   */
  lemma FetchLeavesSoleFile(p: Provider, cfg: CacheConfig, d: Dir, ticker: string, start0: Date, end0: Date,
                            bypass: bool, env: Env)
    requires cfg.enabled && WellFormed(d)
    requires InRange(start0) && InRange(end0) && Valid(env.today) && env.writeOk
    requires forall n :: n in d.files ==> !MatchesGlob(n, ticker + "_")
    requires p.historical(ticker, start0, end0).Ok? && p.historical(ticker, start0, end0).value.Some?
    ensures var f := HistoricalSpec(p, cfg, d, ticker, start0, end0, bypass, env);
      var key0 := Key(ticker, start0, end0);
      f.calls != [] && f.result == p.historical(ticker, start0, end0)
      && key0 in f.dir.files
      && f.dir.files[key0] == Entry(env.size, env.now, Some(p.historical(ticker, start0, end0).value.value.data))
      && forall n :: n in f.dir.files && MatchesGlob(n, ticker + "_") ==> n == key0
  {
    var key0 := Key(ticker, start0, end0);
    KeyParses(ticker, start0, end0);
    assert key0 !in d.files;
    var names := Glob(d.listing, ticker + "_");
    assert forall n :: n in names ==> !Serves(n, start0, end0);
    var g := GetSpec(cfg, d, ticker, start0, end0, env.today, env.now, env.undeletable);
    assert g == Outcome(Ok(None), d);
    EnforceOnlyRemoves(cfg, d, env.undeletable);
  }

  /**
   * After a fetch of `[start0, end0]` for a ticker without an underscore and
   * with no file in the cache yet, asking again for the same window or any
   * window inside it, while the written file is fresh, is answered from the
   * cache and adds no provider call.
   */
  lemma RepeatAfterFetchIsCached(p: Provider, cfg: CacheConfig, d: Dir, ticker: string, start0: Date, end0: Date,
                                 bypass: bool, env1: Env, start: Date, end: Date, env2: Env)
    requires cfg.enabled && WellFormed(d) && '_' !in ticker
    requires InRange(start0) && InRange(end0) && InRange(start) && InRange(end)
    requires Valid(env1.today) && Valid(env2.today) && env1.writeOk
    requires forall n :: n in d.files ==> !MatchesGlob(n, ticker + "_")
    requires p.historical(ticker, start0, end0).Ok? && p.historical(ticker, start0, end0).value.Some?
    requires Covers(Span(start0, end0), start, end)
    requires !Expired(cfg, env1.now, end0, env2.today, env2.now)
    ensures var f1 := HistoricalSpec(p, cfg, d, ticker, start0, end0, bypass, env1);
      var data := p.historical(ticker, start0, end0).value.value.data;
      var f2 := HistoricalSpec(p, cfg, f1.dir, ticker, start, end, false, env2);
      f2.calls == []
      && f2.result == Ok(Some(StockData(ticker, if start == start0 && end == end0 then data else FilterWindow(data, start, end))))
  {
    var f1 := HistoricalSpec(p, cfg, d, ticker, start0, end0, bypass, env1);
    var data := p.historical(ticker, start0, end0).value.value.data;
    FetchLeavesSoleFile(p, cfg, d, ticker, start0, end0, bypass, env1);
    SoleFileServes(cfg, f1.dir, ticker, start0, end0, data, start, end, env2.today, env2.now, env2.undeletable);
  }
}
