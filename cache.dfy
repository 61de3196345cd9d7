/**
 * The disk cache of price frames. A cache directory holds one Parquet file
 * per (ticker, start, end) request, named `TICKER_START_END.parquet`.
 * Reads check an exact entry first and then any entry whose date span
 * covers the request. Recent entries expire after a time to live, while
 * entries that ended more than a year ago never do. Writes first evict the
 * least recently written files while the directory is over its size limit.
 *
 * The directory is a map from file name to entry (size, modification time
 * and payload; an unreadable file has no payload) together with the order
 * in which a directory listing returns the names. The current date, the
 * clock, the size of a written file, whether a write succeeds and which
 * files refuse to be deleted are all parameters.
 */
module Cache {
  import opened Common
  import opened Text
  import opened Dates
  import opened Frames
  import opened Sorting
  import Results

  /** Entries that ended more than this many days before today never expire. */
  const HistoricalThresholdDays: int := 365
  const SecondsPerHour: real := 3600.0
  const BytesPerGb: real := 1073741824.0
  const BytesPerMb: real := 1048576.0
  const Suffix: string := ".parquet"
  /** The error `Path.unlink` raises on a file that refuses deletion. */
  const UnlinkError: string := "OSError"

  datatype CacheConfig = CacheConfig(enabled: bool, cacheDir: string, ttlHours: int, maxSizeGb: real)

  const DefaultConfig: CacheConfig := CacheConfig(true, "data/cache", 24, 5.0)

  /** `max_size_gb * 1024 * 1024 * 1024` */
  function MaxBytes(cfg: CacheConfig): real
  {
    cfg.maxSizeGb * BytesPerGb
  }

  /** One file: its size in bytes, its modification time in seconds, and its frame if it reads back. */
  datatype Entry = Entry(size: nat, mtime: real, payload: Option<seq<Bar>>)

  /** The cache directory: its files and the order a listing returns them in. */
  datatype Dir = Dir(files: map<string, Entry>, listing: seq<string>)

  predicate Distinct(s: seq<string>)
  {
    forall i, j :: 0 <= i < j < |s| ==> s[i] != s[j]
  }

  /** The listing names every file exactly once. */
  predicate WellFormed(d: Dir)
  {
    Distinct(d.listing) && (forall n :: n in d.listing ==> n in d.files) && (forall n :: n in d.files ==> n in d.listing)
  }

  // ---------------------------------------------------------------- keys

  /** `_generate_cache_key`: `f"{ticker}_{start.isoformat()}_{end.isoformat()}.parquet"` */
  function Key(ticker: string, start: Date, end: Date): (k: string)
    requires InRange(start) && InRange(end)
  {
    ticker + "_" + Iso(start) + "_" + Iso(end) + Suffix
  }

  /** The name matches the glob pattern `prefix + "*.parquet"`. */
  predicate MatchesGlob(name: string, prefix: string)
  {
    |name| >= |prefix| + |Suffix| && prefix <= name && name[|name| - |Suffix|..] == Suffix
  }

  /** `cache_dir.glob(prefix + "*.parquet")`, in listing order. */
  function Glob(listing: seq<string>, prefix: string): (r: seq<string>)
    ensures forall n :: n in r <==> n in listing && MatchesGlob(n, prefix)
    ensures Distinct(listing) ==> Distinct(r)
  {
    if listing == [] then []
    else
      var rest := Glob(listing[1..], prefix);
      assert forall n :: n in listing <==> n == listing[0] || n in listing[1..];
      if MatchesGlob(listing[0], prefix) then [listing[0]] + rest else rest
  }

  /** The dates a cache file claims to cover. */
  datatype Span = Span(start: Date, end: Date)

  /**
   * The span named by a cache file: its stem split on `_` must have exactly
   * three parts, the last two of them ISO dates.
   */
  function StemSpan(name: string): Option<Span>
    requires |name| >= |Suffix|
  {
    var parts := Split(name[..|name| - |Suffix|], '_');
    if |parts| != 3 then None
    else
      match ParseIso(parts[1])
      case None => None
      case Some(s) =>
        match ParseIso(parts[2])
        case None => None
        case Some(e) => Some(Span(s, e))
  }

  /** `cached_start <= start and cached_end >= end` */
  predicate Covers(sp: Span, start: Date, end: Date)
  {
    AtOrBefore(sp.start, start) && AtOrBefore(end, sp.end)
  }

  datatype Superset = Superset(name: string, span: Span)

  /** The file's name parses to a span that covers the request. */
  predicate Serves(name: string, start: Date, end: Date)
  {
    |name| >= |Suffix| && StemSpan(name).Some? && Covers(StemSpan(name).value, start, end)
  }

  function ServesRequest(start: Date, end: Date): string -> bool
  {
    n => Serves(n, start, end)
  }

  lemma ServesBySpan(name: string, sp: Option<Span>, start: Date, end: Date)
    requires |name| >= |Suffix| && sp == StemSpan(name)
    ensures ServesRequest(start, end)(name) <==> sp.Some? && Covers(sp.value, start, end)
  {
  }

  /** The position of the first element satisfying `p`. */
  function FirstWhere<T>(s: seq<T>, p: T -> bool): (r: Option<nat>)
    ensures r.Some? ==> r.value < |s| && p(s[r.value]) && forall j :: 0 <= j < r.value ==> !p(s[j])
    ensures r.None? ==> forall j :: 0 <= j < |s| ==> !p(s[j])
  {
    if s == [] then None
    else if p(s[0]) then Some(0)
    else
      var tail := s[1..];
      assert forall j :: 1 <= j < |s| ==> s[j] == tail[j - 1];
      match FirstWhere(tail, p)
      case None => None
      case Some(k) => Some(k + 1)
  }

  /** The first position satisfying `p` is the one before which nothing does. */
  lemma FirstWhereAt<T>(s: seq<T>, p: T -> bool, i: nat)
    requires i < |s| && p(s[i]) && forall j :: 0 <= j < i ==> !p(s[j])
    ensures FirstWhere(s, p) == Some(i)
  {
  }

  /** `_find_superset_cache`: the first listed file whose span covers the request, with that span. */
  function FirstSuperset(names: seq<string>, start: Date, end: Date): (r: Option<Superset>)
    ensures r.Some? ==> r.value.name in names && |r.value.name| >= |Suffix|
                        && StemSpan(r.value.name) == Some(r.value.span) && Covers(r.value.span, start, end)
    ensures r.None? <==> forall n :: n in names ==> !Serves(n, start, end)
  {
    match FirstWhere(names, ServesRequest(start, end))
    case None => None
    case Some(k) => Some(Superset(names[k], StemSpan(names[k]).value))
  }

  // -------------------------------------------------------------- expiry

  /** `_is_historical_data`: the span ended before today minus 365 days. */
  predicate IsHistorical(end: Date, today: Date)
    requires Valid(today)
  {
    Before(end, PlusDays(today, -HistoricalThresholdDays))
  }

  /**
   * `_is_expired`: historical entries never expire; otherwise a time to live
   * of zero or less expires everything, and a positive one expires entries
   * strictly older than it.
   */
  predicate Expired(cfg: CacheConfig, mtime: real, end: Date, today: Date, now: real)
    requires Valid(today)
  {
    if IsHistorical(end, today) then false
    else if cfg.ttlHours <= 0 then true
    else now - mtime > cfg.ttlHours as real * SecondsPerHour
  }

  // ------------------------------------------------- directory updates

  /** `listing` without the names in `gone`, in order. */
  function Keep(listing: seq<string>, gone: set<string>): (r: seq<string>)
    ensures forall n :: n in r <==> n in listing && n !in gone
    ensures Distinct(listing) ==> Distinct(r)
  {
    if listing == [] then []
    else
      var rest := Keep(listing[1..], gone);
      assert forall n :: n in listing <==> n == listing[0] || n in listing[1..];
      if listing[0] in gone then rest else [listing[0]] + rest
  }

  /** The directory after unlinking every file in `gone`. */
  function RemoveAll(d: Dir, gone: set<string>): (d': Dir)
    ensures WellFormed(d) ==> WellFormed(d')
  {
    Dir(d.files - gone, Keep(d.listing, gone))
  }

  /** The directory after writing `e` under `name`; a new name joins the end of the listing. */
  function Write(d: Dir, name: string, e: Entry): (d': Dir)
    requires WellFormed(d)
    ensures WellFormed(d') && d'.files == d.files[name := e]
  {
    Dir(d.files[name := e], if name in d.listing then d.listing else d.listing + [name])
  }

  lemma {:induction false} KeepKeep(listing: seq<string>, a: set<string>, b: set<string>)
    ensures Keep(Keep(listing, a), b) == Keep(listing, a + b)
  {
    if listing != [] {
      KeepKeep(listing[1..], a, b);
    }
  }

  lemma {:induction false} KeepNothing(listing: seq<string>)
    ensures Keep(listing, {}) == listing
  {
    if listing != [] {
      KeepNothing(listing[1..]);
    }
  }

  lemma RemoveNothing(d: Dir)
    ensures RemoveAll(d, {}) == d
  {
    KeepNothing(d.listing);
    assert d.files - {} == d.files;
  }

  lemma ElemsSnoc(s: seq<string>, x: string)
    ensures Elems(s + [x]) == Elems(s) + {x}
  {
  }

  /** Unlinking in two rounds is unlinking everything at once. */
  lemma RemoveAllTwice(d: Dir, a: set<string>, b: set<string>)
    ensures RemoveAll(RemoveAll(d, a), b) == RemoveAll(d, a + b)
  {
    KeepKeep(d.listing, a, b);
    assert d.files - a - b == d.files - (a + b);
  }

  // ------------------------------------------------------------- eviction

  /** Total size in bytes of the named files. */
  function SizeOf(names: seq<string>, files: map<string, Entry>): int
    requires forall n :: n in names ==> n in files
  {
    if names == [] then 0 else files[names[0]].size + SizeOf(names[1..], files)
  }

  /** The sort key of `_enforce_size_limit`: a file's modification time. */
  function MTimeKey(files: map<string, Entry>): string -> real
  {
    n => if n in files then files[n].mtime else 0.0
  }

  datatype Eviction = Eviction(deleted: seq<string>, remaining: int)

  /**
   * The eviction loop over `names` (oldest first): stop once the running
   * size is within the limit; otherwise unlink the next file and subtract
   * its size, or skip it when it cannot be deleted.
   */
  function Evict(names: seq<string>, files: map<string, Entry>, current: int, maxBytes: real,
                 undeletable: set<string>): (r: Eviction)
    requires forall n :: n in names ==> n in files
    ensures forall n :: n in r.deleted ==> n in names && n !in undeletable
    ensures r.deleted != [] ==> current as real > maxBytes
  {
    if names == [] || current as real <= maxBytes then Eviction([], current)
    else if names[0] in undeletable then Evict(names[1..], files, current, maxBytes, undeletable)
    else
      var rest := Evict(names[1..], files, current - files[names[0]].size, maxBytes, undeletable);
      Eviction([names[0]] + rest.deleted, rest.remaining)
  }

  /** The running size falls by the size of each deleted file and by nothing else. */
  lemma {:induction false} EvictRemaining(names: seq<string>, files: map<string, Entry>, current: int, maxBytes: real,
                                          undeletable: set<string>)
    requires forall n :: n in names ==> n in files
    ensures var r := Evict(names, files, current, maxBytes, undeletable);
      r.remaining == current - SizeOf(r.deleted, files)
  {
    if names != [] && current as real > maxBytes {
      var n := names[0];
      if n in undeletable {
        EvictRemaining(names[1..], files, current, maxBytes, undeletable);
      } else {
        EvictRemaining(names[1..], files, current - files[n].size, maxBytes, undeletable);
        var rest := Evict(names[1..], files, current - files[n].size, maxBytes, undeletable);
        assert ([n] + rest.deleted)[1..] == rest.deleted;
      }
    }
  }

  /**
   * One round of the eviction loop, at position `i` of `names`, while over
   * the limit: a file that cannot be deleted is passed over, any other one
   * is the next deleted.
   */
  lemma EvictStep(names: seq<string>, i: nat, files: map<string, Entry>, current: int, maxBytes: real,
                  undeletable: set<string>, deleted: seq<string>, whole: seq<string>)
    requires i < |names| && current as real > maxBytes
    requires forall n :: n in names ==> n in files
    requires deleted + Evict(names[i..], files, current, maxBytes, undeletable).deleted == whole
    ensures names[i] in undeletable ==>
      deleted + Evict(names[i + 1..], files, current, maxBytes, undeletable).deleted == whole
    ensures names[i] !in undeletable ==>
      deleted + [names[i]] + Evict(names[i + 1..], files, current - files[names[i]].size, maxBytes, undeletable).deleted
      == whole
  {
    assert names[i..][0] == names[i] && names[i..][1..] == names[i + 1..];
    if names[i] !in undeletable {
      var rest := Evict(names[i + 1..], files, current - files[names[i]].size, maxBytes, undeletable).deleted;
      assert deleted + [names[i]] + rest == deleted + ([names[i]] + rest);
    }
  }

  /** Extending a list by one element extends its deletable part by that element, if deletable. */
  lemma DeletableSnoc(names: seq<string>, i: nat, undeletable: set<string>)
    requires i < |names|
    ensures Deletable(names[..i + 1], undeletable)
      == Deletable(names[..i], undeletable) + (if names[i] in undeletable then [] else [names[i]])
  {
    assert names[..i + 1][..i] == names[..i];
  }

  function Elems(s: seq<string>): set<string>
  {
    set n | n in s
  }

  /** `_enforce_size_limit` */
  function EnforceSpec(cfg: CacheConfig, d: Dir, undeletable: set<string>): (d': Dir)
    requires WellFormed(d)
    ensures WellFormed(d')
  {
    if !cfg.enabled then d
    else
      var names := Glob(d.listing, "");
      var total := SizeOf(names, d.files);
      if total as real <= MaxBytes(cfg) then d
      else
        var sorted := SortBy(names, MTimeKey(d.files));
        SortByCorrect(names, MTimeKey(d.files));
        assert forall n :: n in sorted ==> n in multiset(names);
        RemoveAll(d, Elems(Evict(sorted, d.files, total, MaxBytes(cfg), undeletable).deleted))
  }

  // ----------------------------------------------------------- operations

  /** What `get` returned, or the error it raised, and the directory afterwards. */
  datatype Outcome = Outcome(value: Attempt<Option<seq<Bar>>>, dir: Dir)
  {
    /** A frame was served. */
    predicate Hit() { value.Ok? && value.value.Some? }
    /** The frame served. */
    function Frame(): seq<Bar> requires Hit() { value.value.value }
  }

  /**
   * `get`: an expired file is unlinked; when the file refuses deletion the
   * error escapes `get` and the directory is left as it was.
   */
  function GetSpec(cfg: CacheConfig, d: Dir, ticker: string, start: Date, end: Date, today: Date, now: real,
                   undeletable: set<string>): Outcome
    requires WellFormed(d) && InRange(start) && InRange(end) && Valid(today)
  {
    if !cfg.enabled then Outcome(Ok(None), d)
    else
      var key := Key(ticker, start, end);
      if key in d.files then
        if Expired(cfg, d.files[key].mtime, end, today, now) then ExpireFile(d, key, undeletable)
        else Outcome(Ok(d.files[key].payload), d)
      else
        match FirstSuperset(Glob(d.listing, ticker + "_"), start, end)
        case None => Outcome(Ok(None), d)
        case Some(sup) =>
          if Expired(cfg, d.files[sup.name].mtime, sup.span.end, today, now) then ExpireFile(d, sup.name, undeletable)
          else
            match d.files[sup.name].payload
            case None => Outcome(Ok(None), d)
            case Some(bars) => Outcome(Ok(Some(FilterWindow(bars, start, end))), d)
  }

  /** The bare `unlink` of an expired file inside `get`: nothing is served, or the deletion error escapes. */
  function ExpireFile(d: Dir, name: string, undeletable: set<string>): Outcome
  {
    if name in undeletable then Outcome(Raised(UnlinkError), d)
    else Outcome(Ok(None), RemoveAll(d, {name}))
  }

  /** `set`: evict first, then write the frame under its key unless the write fails. */
  function SetSpec(cfg: CacheConfig, d: Dir, ticker: string, start: Date, end: Date, data: seq<Bar>,
                   size: nat, now: real, writeOk: bool, undeletable: set<string>): (d': Dir)
    requires WellFormed(d) && InRange(start) && InRange(end)
    ensures WellFormed(d')
  {
    if !cfg.enabled then d
    else
      var d1 := EnforceSpec(cfg, d, undeletable);
      if writeOk then Write(d1, Key(ticker, start, end), Entry(size, now, Some(data))) else d1
  }

  /** `exists`: an unexpired exact entry, or any covering entry whether expired or not. */
  predicate ExistsSpec(cfg: CacheConfig, d: Dir, ticker: string, start: Date, end: Date, today: Date, now: real)
    requires WellFormed(d) && InRange(start) && InRange(end) && Valid(today)
  {
    if !cfg.enabled then false
    else
      var key := Key(ticker, start, end);
      if key !in d.files then FirstSuperset(Glob(d.listing, ticker + "_"), start, end).Some?
      else !Expired(cfg, d.files[key].mtime, end, today, now)
  }

  /** The glob prefix of `clear`: a given non-empty ticker selects its own files, otherwise all. */
  function ClearPrefix(ticker: Option<string>): string
  {
    if ticker.Some? && ticker.value != [] then ticker.value + "_" else ""
  }

  /** The listed names that can be deleted, in order (built from the back, as the loop goes). */
  function Deletable(names: seq<string>, undeletable: set<string>): (r: seq<string>)
    ensures forall n :: n in r <==> n in names && n !in undeletable
  {
    if names == [] then []
    else
      var last := names[|names| - 1];
      var init := names[..|names| - 1];
      assert forall n :: n in names <==> n in init || n == last;
      Deletable(init, undeletable) + (if last in undeletable then [] else [last])
  }

  datatype Cleared = Cleared(count: nat, dir: Dir)

  /** `clear`: the count of files deleted and the directory afterwards. */
  function ClearSpec(cfg: CacheConfig, d: Dir, ticker: Option<string>, undeletable: set<string>): Cleared
  {
    if !cfg.enabled then Cleared(0, d)
    else
      var gone := Deletable(Glob(d.listing, ClearPrefix(ticker)), undeletable);
      Cleared(|gone|, RemoveAll(d, Elems(gone)))
  }

  datatype Stats = Stats(enabled: bool, entryCount: nat, totalSizeMb: real,
                         oldest: Option<real>, newest: Option<real>, cacheDir: Option<string>)

  // ---------------------------------------------------------------- class

  class CacheManager {
    const config: CacheConfig
    var files: map<string, Entry>
    var listing: seq<string>

    ghost predicate Valid()
      reads this
    {
      WellFormed(Dir(files, listing))
    }

    function State(): Dir
      reads this
    {
      Dir(files, listing)
    }

    /** A manager over a directory that already holds `initial`. */
    constructor (config: CacheConfig, initial: Dir)
      requires WellFormed(initial)
      ensures this.config == config && State() == initial && Valid()
    {
      this.config := config;
      files := initial.files;
      listing := initial.listing;
    }

    /** `Path.unlink` on one cache file. */
    method Unlink(name: string)
      requires Valid()
      modifies this
      ensures Valid() && State() == RemoveAll(old(State()), {name})
    {
      files := files - {name};
      listing := Keep(listing, {name});
    }

    /** Unlinking one more file after the files `gone` were unlinked from `d0`. */
    method UnlinkMore(name: string, ghost d0: Dir, ghost gone: set<string>)
      requires Valid() && State() == RemoveAll(d0, gone)
      modifies this
      ensures Valid() && State() == RemoveAll(d0, gone + {name})
    {
      Unlink(name);
      RemoveAllTwice(d0, gone, {name});
    }

    /** `DataFrame.to_parquet` on one cache file. */
    method WriteFile(name: string, e: Entry)
      requires Valid()
      modifies this
      ensures Valid() && State() == Write(old(State()), name, e)
    {
      files := files[name := e];
      if name !in listing {
        listing := listing + [name];
      }
    }

    method FindSupersetCache(ticker: string, start: Date, end: Date) returns (r: Option<Superset>)
      ensures r == FirstSuperset(Glob(listing, ticker + "_"), start, end)
    {
      var names := Glob(listing, ticker + "_");
      for i := 0 to |names|
        invariant forall j :: 0 <= j < i ==> !Serves(names[j], start, end)
      {
        assert names[i] in names && MatchesGlob(names[i], ticker + "_");
        var sp := StemSpan(names[i]);
        if sp.Some? && Covers(sp.value, start, end) {
          FirstWhereAt(names, ServesRequest(start, end), i);
          return Some(Superset(names[i], sp.value));
        }
      }
      assert FirstWhere(names, ServesRequest(start, end)).None?;
      return None;
    }

    /** `get`; a file in `undeletable` makes its `unlink` raise. */
    method Get(ticker: string, start: PyDate, end: PyDate, today: Date, now: real, undeletable: set<string>)
      returns (r: Attempt<Option<seq<Bar>>>)
      requires Valid() && Dates.Valid(today)
      modifies this
      ensures Valid()
      ensures Outcome(r, State()) == GetSpec(config, old(State()), ticker, start, end, today, now, undeletable)
    {
      if !config.enabled {
        return Ok(None);
      }
      var key := Key(ticker, start, end);
      if key in files {
        if Expired(config, files[key].mtime, end, today, now) {
          r := TryUnlink(key, undeletable);
          return;
        }
        return Ok(files[key].payload);
      }
      var sup := FindSupersetCache(ticker, start, end);
      if sup.Some? {
        var path := sup.value.name;
        if Expired(config, files[path].mtime, sup.value.span.end, today, now) {
          r := TryUnlink(path, undeletable);
          return;
        }
        match files[path].payload
        case None =>
          return Ok(None);
        case Some(bars) =>
          return Ok(Some(FilterWindow(bars, start, end)));
      }
      return Ok(None);
    }

    /** An `unlink` outside any `try`: a file that refuses deletion stays and the error is passed on. */
    method TryUnlink(name: string, undeletable: set<string>) returns (r: Attempt<Option<seq<Bar>>>)
      requires Valid()
      modifies this
      ensures Valid() && Outcome(r, State()) == ExpireFile(old(State()), name, undeletable)
    {
      if name in undeletable {
        return Raised(UnlinkError);
      }
      Unlink(name);
      return Ok(None);
    }

    method Set(ticker: string, start: PyDate, end: PyDate, data: seq<Bar>, size: nat, now: real,
               writeOk: bool, undeletable: set<string>)
      requires Valid()
      modifies this
      ensures Valid()
      ensures State() == SetSpec(config, old(State()), ticker, start, end, data, size, now, writeOk, undeletable)
    {
      if !config.enabled {
        return;
      }
      EnforceSizeLimit(undeletable);
      var key := Key(ticker, start, end);
      if writeOk {
        WriteFile(key, Entry(size, now, Some(data)));
      }
    }

    method Exists(ticker: string, start: PyDate, end: PyDate, today: Date, now: real) returns (b: bool)
      requires Valid() && Dates.Valid(today)
      ensures b == ExistsSpec(config, State(), ticker, start, end, today, now)
    {
      if !config.enabled {
        return false;
      }
      var key := Key(ticker, start, end);
      if key !in files {
        var sup := FindSupersetCache(ticker, start, end);
        return sup.Some?;
      }
      if Expired(config, files[key].mtime, end, today, now) {
        return false;
      }
      return true;
    }

    method Clear(ticker: Option<string>, undeletable: set<string>) returns (count: nat)
      requires Valid()
      modifies this
      ensures Valid()
      ensures Cleared(count, State()) == ClearSpec(config, old(State()), ticker, undeletable)
    {
      if !config.enabled {
        return 0;
      }
      var names := Glob(listing, ClearPrefix(ticker));
      ghost var d0 := State();
      ghost var gone: set<string> := {};
      RemoveNothing(d0);
      count := 0;
      for i := 0 to |names|
        invariant Valid()
        invariant State() == RemoveAll(d0, gone)
        invariant count == |Deletable(names[..i], undeletable)|
        invariant gone == Elems(Deletable(names[..i], undeletable))
      {
        DeletableSnoc(names, i, undeletable);
        if names[i] !in undeletable {
          Unlink(names[i]);
          RemoveAllTwice(d0, gone, {names[i]});
          ElemsSnoc(Deletable(names[..i], undeletable), names[i]);
          gone := gone + {names[i]};
          count := count + 1;
        }
      }
      assert names[..|names|] == names;
    }

    method EnforceSizeLimit(undeletable: set<string>)
      requires Valid()
      modifies this
      ensures Valid()
      ensures State() == EnforceSpec(config, old(State()), undeletable)
    {
      if !config.enabled {
        return;
      }
      var maxBytes := MaxBytes(config);
      var names := Glob(listing, "");
      var snapshot := files;
      var current := SizeOf(names, snapshot);
      if current as real <= maxBytes {
        return;
      }
      var sorted := SortBy(names, MTimeKey(snapshot));
      SortByCorrect(names, MTimeKey(snapshot));
      assert forall n :: n in sorted ==> n in multiset(names);
      EvictOldest(sorted, snapshot, current, maxBytes, undeletable);
    }

    /**
     * One round of the eviction loop while over the limit: the file at `i`
     * is unlinked and its size subtracted unless it cannot be deleted.
     */
    method EvictNext(sorted: seq<string>, i: nat, snapshot: map<string, Entry>, size: int, maxBytes: real,
                     undeletable: set<string>, ghost d0: Dir, ghost gone: set<string>, ghost deleted: seq<string>,
                     ghost whole: seq<string>)
      returns (size': int, ghost gone': set<string>, ghost deleted': seq<string>)
      requires i < |sorted| && size as real > maxBytes && forall n :: n in sorted ==> n in snapshot
      requires Valid() && State() == RemoveAll(d0, gone) && gone == Elems(deleted)
      requires deleted + Evict(sorted[i..], snapshot, size, maxBytes, undeletable).deleted == whole
      modifies this
      ensures Valid() && State() == RemoveAll(d0, gone') && gone' == Elems(deleted')
      ensures deleted' + Evict(sorted[i + 1..], snapshot, size', maxBytes, undeletable).deleted == whole
    {
      var name := sorted[i];
      EvictStep(sorted, i, snapshot, size, maxBytes, undeletable, deleted, whole);
      size', gone', deleted' := size, gone, deleted;
      if name !in undeletable {
        UnlinkMore(name, d0, gone);
        ElemsSnoc(deleted, name);
        gone' := gone + {name};
        deleted' := deleted + [name];
        size' := size - snapshot[name].size;
      }
    }

    /** The eviction loop of `_enforce_size_limit` over files already sorted oldest first. */
    method EvictOldest(sorted: seq<string>, snapshot: map<string, Entry>, current: int, maxBytes: real,
                       undeletable: set<string>)
      requires Valid() && forall n :: n in sorted ==> n in snapshot
      modifies this
      ensures Valid()
      ensures State() == RemoveAll(old(State()), Elems(Evict(sorted, snapshot, current, maxBytes, undeletable).deleted))
    {
      ghost var d0 := State();
      ghost var deleted: seq<string> := [];
      ghost var gone: set<string> := {};
      ghost var whole := Evict(sorted, snapshot, current, maxBytes, undeletable).deleted;
      RemoveNothing(d0);
      assert sorted[0..] == sorted;
      var size := current;
      for i := 0 to |sorted|
        invariant Valid()
        invariant State() == RemoveAll(d0, gone)
        invariant gone == Elems(deleted)
        invariant deleted + Evict(sorted[i..], snapshot, size, maxBytes, undeletable).deleted == whole
      {
        if size as real <= maxBytes {
          break;
        }
        size, gone, deleted := EvictNext(sorted, i, snapshot, size, maxBytes, undeletable, d0, gone, deleted, whole);
      }
      assert deleted == whole;
    }

    /** `get_stats` */
    function GetStats(): (s: Stats)
      reads this
      requires Valid()
      ensures s.enabled == config.enabled
      ensures !config.enabled ==> s.entryCount == 0 && s.totalSizeMb == 0.0 && s.cacheDir == None
      ensures config.enabled ==> s.entryCount == |Glob(listing, "")| && s.cacheDir == Some(config.cacheDir)
      ensures config.enabled ==>
        -1.0 / 200.0 < s.totalSizeMb - SizeOf(Glob(listing, ""), files) as real / BytesPerMb <= 1.0 / 200.0
      ensures s.oldest.Some? <==> config.enabled && Glob(listing, "") != []
      ensures s.oldest.Some? <==> s.newest.Some?
      ensures s.oldest.Some? ==> forall n :: n in files && MatchesGlob(n, "") ==>
        s.oldest.value <= files[n].mtime <= s.newest.value
      ensures s.oldest.Some? ==> (exists n :: n in files && MatchesGlob(n, "") && files[n].mtime == s.oldest.value)
                                 && (exists n :: n in files && MatchesGlob(n, "") && files[n].mtime == s.newest.value)
    {
      if !config.enabled then Stats(false, 0, 0.0, None, None, None)
      else
        var names := Glob(listing, "");
        var total := SizeOf(names, files);
        var mb := Results.Round2(total as real / BytesPerMb);
        if names == [] then Stats(true, 0, mb, None, None, Some(config.cacheDir))
        else
          var key := MTimeKey(files);
          var sorted := SortBy(names, key);
          SortByCorrect(names, key);
          SortedEnds(names, sorted, key);
          Stats(true, |names|, mb, Some(key(sorted[0])), Some(key(sorted[|sorted| - 1])), Some(config.cacheDir))
    }
  }

  /** The first and last elements of a sorted permutation hold the smallest and largest keys. */
  lemma SortedEnds(names: seq<string>, sorted: seq<string>, key: string -> real)
    requires names != [] && multiset(sorted) == multiset(names) && SortedBy(sorted, key)
    ensures |sorted| > 0 && sorted[0] in names && sorted[|sorted| - 1] in names
    ensures forall n :: n in names ==> key(sorted[0]) <= key(n) <= key(sorted[|sorted| - 1])
  {
    assert names[0] in multiset(sorted);
    assert sorted[0] in multiset(names) && sorted[|sorted| - 1] in multiset(names);
    forall n | n in names
      ensures key(sorted[0]) <= key(n) <= key(sorted[|sorted| - 1])
    {
      assert n in multiset(sorted);
      var k :| 0 <= k < |sorted| && sorted[k] == n;
    }
  }

  // ---------------------------------------------------------- properties

  /** Different requests never share a cache file: the key determines ticker, start and end. */
  lemma KeyInjective(t1: string, s1: Date, e1: Date, t2: string, s2: Date, e2: Date)
    requires InRange(s1) && InRange(e1) && InRange(s2) && InRange(e2)
    requires Key(t1, s1, e1) == Key(t2, s2, e2)
    ensures t1 == t2 && s1 == s2 && e1 == e2
  {
    var a1, b1, a2, b2 := Iso(s1), Iso(e1), Iso(s2), Iso(e2);
    NameSlices(t1, a1, b1);
    NameSlices(t2, a2, b2);
    IsoRoundTrip(s1);
    IsoRoundTrip(s2);
    IsoRoundTrip(e1);
    IsoRoundTrip(e2);
  }

  /** In a name `t_a_b.parquet` with ten-character `a` and `b`, the three parts sit at fixed offsets from `t`'s length. */
  lemma NameSlices(t: string, a: string, b: string)
    requires |a| == 10 && |b| == 10
    ensures var k := t + "_" + a + "_" + b + Suffix;
      |k| == |t| + 22 + |Suffix| && k[..|t|] == t && k[|t| + 1..|t| + 11] == a && k[|t| + 12..|t| + 22] == b
  {
  }

  /**
   * A key is listed under its ticker's glob pattern, and its name gives back
   * the requested span exactly when the ticker holds no underscore; a ticker
   * with an underscore splits into too many parts and never serves a request
   * from a wider file.
   */
  lemma KeyParses(t: string, s: Date, e: Date)
    requires InRange(s) && InRange(e)
    ensures MatchesGlob(Key(t, s, e), t + "_")
    ensures '_' !in t ==> StemSpan(Key(t, s, e)) == Some(Span(s, e))
    ensures '_' in t ==> StemSpan(Key(t, s, e)).None?
  {
    KeyStemParts(t, s, e);
    if '_' !in t {
      SplitNoSep(t, '_');
      IsoRoundTrip(s);
      IsoRoundTrip(e);
    } else {
      SplitAtSep(t, '_');
    }
  }

  /** A key's stem splits at underscores into the ticker's parts and the two dates. */
  lemma KeyStemParts(t: string, s: Date, e: Date)
    requires InRange(s) && InRange(e)
    ensures MatchesGlob(Key(t, s, e), t + "_") && |Key(t, s, e)| >= |Suffix|
    ensures Split(Key(t, s, e)[..|Key(t, s, e)| - |Suffix|], '_') == Split(t, '_') + [Iso(s)] + [Iso(e)]
  {
    var a, b := Iso(s), Iso(e);
    NameParts(t, a, b);
    IsoHasNoUnderscore(s);
    IsoHasNoUnderscore(e);
    SplitLastTwo(t, '_', a, b);
  }

  /** A name built as `t_a_b.parquet` begins with `t_`, ends with the suffix, and has stem `t_a_b`. */
  lemma NameParts(t: string, a: string, b: string)
    ensures var k := t + "_" + a + "_" + b + Suffix;
      |k| >= |t| + 1 + |Suffix| && k[..|t| + 1] == t + "_" && k[|k| - |Suffix|..] == Suffix
      && k[..|k| - |Suffix|] == t + ['_'] + (a + ['_'] + b)
  {
    var k := t + "_" + a + "_" + b + Suffix;
    var stem := t + ['_'] + (a + ['_'] + b);
    assert k == stem + Suffix;
    assert k[..|t| + 1] == t + "_";
  }

  /** `_is_historical_data` in day numbers: the end lies more than 365 days before today. */
  lemma HistoricalIffOrdinal(end: Date, today: Date)
    requires Valid(end) && Valid(today)
    ensures IsHistorical(end, today) <==> Ordinal(end) < Ordinal(today) - HistoricalThresholdDays
  {
    var threshold := PlusDays(today, -HistoricalThresholdDays);
    OrdinalPlusDays(today, -HistoricalThresholdDays);
    BeforeIffOrdinalLess(end, threshold);
  }

  /** Once historical, an entry stays historical as the days go by, so it never expires again. */
  lemma HistoricalStaysHistorical(cfg: CacheConfig, mtime: real, end: Date, today: Date, later: Date, now: real)
    requires Valid(end) && Valid(today) && Valid(later) && AtOrBefore(today, later)
    requires IsHistorical(end, today)
    ensures IsHistorical(end, later) && !Expired(cfg, mtime, end, later, now)
  {
    HistoricalIffOrdinal(end, today);
    HistoricalIffOrdinal(end, later);
    BeforeIffOrdinalLess(today, later);
  }

  /** A disabled cache serves nothing, stores nothing, reports nothing and clears nothing. */
  lemma DisabledIsInert(cfg: CacheConfig, d: Dir, ticker: string, start: Date, end: Date, today: Date, now: real,
                        data: seq<Bar>, size: nat, writeOk: bool, undeletable: set<string>, which: Option<string>)
    requires !cfg.enabled && WellFormed(d) && InRange(start) && InRange(end) && Valid(today)
    ensures GetSpec(cfg, d, ticker, start, end, today, now, undeletable) == Outcome(Ok(None), d)
    ensures SetSpec(cfg, d, ticker, start, end, data, size, now, writeOk, undeletable) == d
    ensures !ExistsSpec(cfg, d, ticker, start, end, today, now)
    ensures ClearSpec(cfg, d, which, undeletable) == Cleared(0, d)
  {
  }

  /**
   * A successful `set` followed by a `get` of the same request serves the
   * stored frame while it is fresh; once it has expired, the `get` deletes
   * the file and serves nothing, without looking for a wider file, or
   * raises and keeps the file when it refuses deletion.
   */
  lemma SetThenGet(cfg: CacheConfig, d: Dir, ticker: string, start: Date, end: Date, data: seq<Bar>, size: nat,
                   now: real, undeletable: set<string>, today: Date, later: real, stuck: set<string>)
    requires cfg.enabled && WellFormed(d) && InRange(start) && InRange(end) && Valid(today)
    ensures var d' := SetSpec(cfg, d, ticker, start, end, data, size, now, true, undeletable);
      var key := Key(ticker, start, end);
      GetSpec(cfg, d', ticker, start, end, today, later, stuck) ==
        if !Expired(cfg, now, end, today, later) then Outcome(Ok(Some(data)), d')
        else if key in stuck then Outcome(Raised(UnlinkError), d')
        else Outcome(Ok(None), RemoveAll(d', {key}))
  {
    var d' := SetSpec(cfg, d, ticker, start, end, data, size, now, true, undeletable);
    assert d'.files[Key(ticker, start, end)] == Entry(size, now, Some(data));
  }

  /**
   * A file that refuses deletion changes `get` only by making it raise, and
   * then the directory is untouched; when every file can be deleted, `get`
   * never raises.
   */
  lemma GetRaisesOnlyOnUnlink(cfg: CacheConfig, d: Dir, ticker: string, start: Date, end: Date, today: Date, now: real,
                              undeletable: set<string>)
    requires WellFormed(d) && InRange(start) && InRange(end) && Valid(today)
    ensures var g := GetSpec(cfg, d, ticker, start, end, today, now, undeletable);
      (g.value.Raised? ==> g.dir == d && g.value.message == UnlinkError && undeletable * d.files.Keys != {})
      && (g.value.Ok? ==> g == GetSpec(cfg, d, ticker, start, end, today, now, {}))
      && (undeletable == {} ==> g.value.Ok?)
  {
    var g := GetSpec(cfg, d, ticker, start, end, today, now, undeletable);
    if g.value.Raised? {
      var key := Key(ticker, start, end);
      var name := if key in d.files then key else FirstSuperset(Glob(d.listing, ticker + "_"), start, end).value.name;
      assert name in undeletable * d.files.Keys;
    }
  }

  /** Whatever `get` serves, `exists` reports. */
  lemma GetHitImpliesExists(cfg: CacheConfig, d: Dir, ticker: string, start: Date, end: Date, today: Date, now: real,
                             undeletable: set<string>)
    requires WellFormed(d) && InRange(start) && InRange(end) && Valid(today)
    requires GetSpec(cfg, d, ticker, start, end, today, now, undeletable).Hit()
    ensures ExistsSpec(cfg, d, ticker, start, end, today, now)
  {
  }

  /**
   * `exists` does not check a wider file's age: with no exact file and an
   * expired covering file, it reports the entry although `get` deletes it
   * and serves nothing.
   */
  lemma ExistsIgnoresSupersetExpiry(cfg: CacheConfig, d: Dir, ticker: string, start: Date, end: Date,
                                    today: Date, now: real, undeletable: set<string>)
    requires cfg.enabled && WellFormed(d) && InRange(start) && InRange(end) && Valid(today)
    requires Key(ticker, start, end) !in d.files
    requires FirstSuperset(Glob(d.listing, ticker + "_"), start, end).Some?
    requires var sup := FirstSuperset(Glob(d.listing, ticker + "_"), start, end).value;
      Expired(cfg, d.files[sup.name].mtime, sup.span.end, today, now)
    ensures ExistsSpec(cfg, d, ticker, start, end, today, now)
    ensures var sup := FirstSuperset(Glob(d.listing, ticker + "_"), start, end).value;
      GetSpec(cfg, d, ticker, start, end, today, now, undeletable) ==
        if sup.name in undeletable then Outcome(Raised(UnlinkError), d) else Outcome(Ok(None), RemoveAll(d, {sup.name}))
  {
  }

  /**
   * Without an exact file, whatever `get` serves comes from one of the
   * ticker's files whose name covers the request, cut to the rows dated in
   * the request's closed window.
   */
  lemma SupersetServesWindow(cfg: CacheConfig, d: Dir, ticker: string, start: Date, end: Date, today: Date, now: real,
                             undeletable: set<string>)
    requires WellFormed(d) && InRange(start) && InRange(end) && Valid(today)
    requires Key(ticker, start, end) !in d.files
    requires GetSpec(cfg, d, ticker, start, end, today, now, undeletable).Hit()
    ensures var r := GetSpec(cfg, d, ticker, start, end, today, now, undeletable).Frame();
      exists name :: name in d.files && MatchesGlob(name, ticker + "_") && Serves(name, start, end)
        && d.files[name].payload.Some?
        && forall b :: b in r <==> b in d.files[name].payload.value && InWindow(b.date, start, end)
  {
    var sup := FirstSuperset(Glob(d.listing, ticker + "_"), start, end).value;
    assert sup.name in d.files && MatchesGlob(sup.name, ticker + "_") && Serves(sup.name, start, end);
    var bars := d.files[sup.name].payload.value;
    assert GetSpec(cfg, d, ticker, start, end, today, now, undeletable).Frame() == FilterWindow(bars, start, end);
  }

  /** A request that no file covers, not even in part, is a miss that changes nothing. */
  lemma PartialOverlapMisses(cfg: CacheConfig, d: Dir, ticker: string, start: Date, end: Date, today: Date, now: real,
                             undeletable: set<string>)
    requires WellFormed(d) && InRange(start) && InRange(end) && Valid(today)
    requires Key(ticker, start, end) !in d.files
    requires forall n :: n in d.files && MatchesGlob(n, ticker + "_") ==> !Serves(n, start, end)
    ensures GetSpec(cfg, d, ticker, start, end, today, now, undeletable) == Outcome(Ok(None), d)
  {
  }

  // ------------------------------------------------- eviction properties

  /**
   * Eviction goes strictly in list order: when a later file was deleted,
   * every earlier file that could be deleted was deleted too.
   */
  lemma {:induction false} EvictPrefix(names: seq<string>, files: map<string, Entry>, current: int, maxBytes: real,
                                       undeletable: set<string>, i: nat, j: nat)
    requires forall n :: n in names ==> n in files
    requires Distinct(names) && i < j < |names| && names[i] !in undeletable
    requires names[j] in Evict(names, files, current, maxBytes, undeletable).deleted
    ensures names[i] in Evict(names, files, current, maxBytes, undeletable).deleted
  {
    var tail := names[1..];
    assert i == 0 || names[i] == tail[i - 1];
    assert names[j] == tail[j - 1];
    assert Distinct(tail);
    if names[0] in undeletable {
      EvictPrefix(tail, files, current, maxBytes, undeletable, i - 1, j - 1);
    } else if i > 0 {
      var rest := Evict(tail, files, current - files[names[0]].size, maxBytes, undeletable);
      assert names[j] != names[0];
      assert names[j] in rest.deleted;
      EvictPrefix(tail, files, current - files[names[0]].size, maxBytes, undeletable, i - 1, j - 1);
    }
  }

  /** With every file deletable and a non-negative limit, eviction gets within the limit. */
  lemma {:induction false} EvictReachesLimit(names: seq<string>, files: map<string, Entry>, current: int,
                                             maxBytes: real, undeletable: set<string>)
    requires forall n :: n in names ==> n in files && n !in undeletable
    requires current == SizeOf(names, files) && maxBytes >= 0.0
    ensures Evict(names, files, current, maxBytes, undeletable).remaining as real <= maxBytes
  {
    if names != [] && current as real > maxBytes {
      EvictReachesLimit(names[1..], files, current - files[names[0]].size, maxBytes, undeletable);
    }
  }

  /** The files eviction deletes are distinct when the listing is. */
  lemma {:induction false} EvictDistinct(names: seq<string>, files: map<string, Entry>, current: int, maxBytes: real,
                                         undeletable: set<string>)
    requires forall n :: n in names ==> n in files
    requires Distinct(names)
    ensures Distinct(Evict(names, files, current, maxBytes, undeletable).deleted)
  {
    if names != [] && current as real > maxBytes {
      var tail := names[1..];
      assert Distinct(tail);
      assert names[0] !in tail;
      if names[0] in undeletable {
        EvictDistinct(tail, files, current, maxBytes, undeletable);
      } else {
        EvictDistinct(tail, files, current - files[names[0]].size, maxBytes, undeletable);
      }
    }
  }

  lemma {:induction false} SizeOfAppend(a: seq<string>, b: seq<string>, files: map<string, Entry>)
    requires forall n :: n in a ==> n in files
    requires forall n :: n in b ==> n in files
    ensures forall n :: n in a + b ==> n in files
    ensures SizeOf(a + b, files) == SizeOf(a, files) + SizeOf(b, files)
  {
    if a != [] {
      var ab := a + b;
      assert ab[0] == a[0] && ab[1..] == a[1..] + b;
      SizeOfAppend(a[1..], b, files);
      assert SizeOf(ab, files) == files[a[0]].size + SizeOf(a[1..] + b, files);
    } else {
      assert a + b == b;
    }
  }

  /** Total size does not depend on the order the files are listed in. */
  lemma {:induction false} SizeOfPermutation(a: seq<string>, b: seq<string>, files: map<string, Entry>)
    requires forall n :: n in a ==> n in files
    requires multiset(a) == multiset(b)
    ensures forall n :: n in b ==> n in files
    ensures SizeOf(a, files) == SizeOf(b, files)
    decreases |a|
  {
    PermutationMembers(a, b, files);
    if a == [] {
      assert |multiset(b)| == 0;
    } else {
      var k := IndexOf(b, a[0]);
      var b' := RemoveAt(b, k);
      HeadMultiset(a);
      SizeOfPermutation(a[1..], b', files);
      SizeOfRemoveAt(b, k, files);
    }
  }

  lemma HeadMultiset(a: seq<string>)
    requires a != []
    ensures multiset(a[1..]) == multiset(a) - multiset{a[0]}
  {
    assert a == [a[0]] + a[1..];
  }

  /** A position holding `x` in a list whose multiset holds it. */
  function IndexOf(b: seq<string>, x: string): (k: nat)
    requires x in multiset(b)
    ensures k < |b| && b[k] == x
  {
    if b[0] == x then 0 else
      assert b == [b[0]] + b[1..];
      1 + IndexOf(b[1..], x)
  }

  lemma PermutationMembers(a: seq<string>, b: seq<string>, files: map<string, Entry>)
    requires forall n :: n in a ==> n in files
    requires multiset(a) == multiset(b)
    ensures forall n :: n in b ==> n in files
  {
    forall n | n in b
      ensures n in files
    {
      assert n in multiset(b);
    }
  }

  function RemoveAt(b: seq<string>, k: nat): (r: seq<string>)
    requires k < |b|
    ensures multiset(r) == multiset(b) - multiset{b[k]}
    ensures forall n :: n in r ==> n in b
  {
    assert b == b[..k] + [b[k]] + b[k + 1..];
    b[..k] + b[k + 1..]
  }

  lemma SizeOfRemoveAt(b: seq<string>, k: nat, files: map<string, Entry>)
    requires k < |b| && forall n :: n in b ==> n in files
    ensures SizeOf(b, files) == files[b[k]].size + SizeOf(RemoveAt(b, k), files)
  {
    assert b == b[..k] + ([b[k]] + b[k + 1..]);
    SizeOfAppend(b[..k], [b[k]] + b[k + 1..], files);
    SizeOfAppend(b[..k], b[k + 1..], files);
  }

  /** A distinct list holds each name at most once. */
  lemma {:induction false} DistinctCount(a: seq<string>, x: string)
    requires Distinct(a)
    ensures multiset(a)[x] == if x in a then 1 else 0
  {
    if a != [] {
      assert a == [a[0]] + a[1..];
      assert Distinct(a[1..]);
      DistinctCount(a[1..], x);
      assert a[0] !in a[1..];
    }
  }

  /** Reordering keeps a list free of repeats. */
  lemma DistinctPermutation(a: seq<string>, b: seq<string>)
    requires Distinct(a) && multiset(a) == multiset(b)
    ensures Distinct(b)
  {
    forall i, j | 0 <= i < j < |b|
      ensures b[i] != b[j]
    {
      if b[i] == b[j] {
        assert b == b[..j] + b[j..];
        assert b[i] in b[..j] && b[j] in b[j..];
        assert multiset(b)[b[i]] == multiset(b[..j])[b[i]] + multiset(b[j..])[b[i]];
        DistinctCount(a, b[i]);
        assert false;
      }
    }
  }

  /** Two distinct lists with the same names are permutations of each other. */
  lemma DistinctSameNames(a: seq<string>, b: seq<string>)
    requires Distinct(a) && Distinct(b) && Elems(a) == Elems(b)
    ensures multiset(a) == multiset(b)
  {
    forall x
      ensures multiset(a)[x] == multiset(b)[x]
    {
      DistinctCount(a, x);
      DistinctCount(b, x);
      assert x in a <==> x in Elems(a);
      assert x in b <==> x in Elems(b);
    }
  }

  /** `listing` restricted to the names in `chosen`, in order. */
  function Pick(listing: seq<string>, chosen: set<string>): (r: seq<string>)
    ensures forall n :: n in r <==> n in listing && n in chosen
    ensures Distinct(listing) ==> Distinct(r)
  {
    if listing == [] then []
    else
      var rest := Pick(listing[1..], chosen);
      assert forall n :: n in listing <==> n == listing[0] || n in listing[1..];
      if listing[0] in chosen then [listing[0]] + rest else rest
  }

  /** The size of a list is the size of the names kept plus the size of the names removed. */
  lemma {:induction false} SizeOfPartition(names: seq<string>, gone: set<string>, files: map<string, Entry>)
    requires forall n :: n in names ==> n in files
    ensures SizeOf(names, files) == SizeOf(Keep(names, gone), files) + SizeOf(Pick(names, gone), files)
  {
    if names != [] {
      SizeOfPartition(names[1..], gone, files);
    }
  }

  /** Sizes only depend on the entries of the names counted. */
  lemma {:induction false} SizeOfSameEntries(names: seq<string>, f1: map<string, Entry>, f2: map<string, Entry>)
    requires forall n :: n in names ==> n in f1 && n in f2 && f1[n] == f2[n]
    ensures SizeOf(names, f1) == SizeOf(names, f2)
  {
    if names != [] {
      SizeOfSameEntries(names[1..], f1, f2);
    }
  }

  /** Globbing after unlinking is globbing before, minus the unlinked names. */
  lemma {:induction false} GlobKeep(listing: seq<string>, gone: set<string>, prefix: string)
    ensures Glob(Keep(listing, gone), prefix) == Keep(Glob(listing, prefix), gone)
  {
    if listing != [] {
      GlobKeep(listing[1..], gone, prefix);
    }
  }

  /** The Parquet files of `d` in eviction order: oldest first, ties in listing order. */
  function EvictionOrder(d: Dir): (sorted: seq<string>)
    requires WellFormed(d)
    ensures multiset(sorted) == multiset(Glob(d.listing, "")) && Distinct(sorted)
    ensures SortedBy(sorted, MTimeKey(d.files))
    ensures forall n :: n in sorted ==> n in d.files
  {
    var names := Glob(d.listing, "");
    SortByCorrect(names, MTimeKey(d.files));
    DistinctPermutation(names, SortBy(names, MTimeKey(d.files)));
    assert forall n :: n in SortBy(names, MTimeKey(d.files)) ==> n in multiset(names);
    SortBy(names, MTimeKey(d.files))
  }

  /**
   * Least recently written first: when eviction deletes a file, it has
   * deleted every deletable Parquet file written strictly earlier.
   */
  lemma EnforceOldestFirst(cfg: CacheConfig, d: Dir, undeletable: set<string>, older: string, newer: string)
    requires WellFormed(d) && older in d.files && newer in d.files
    requires MatchesGlob(older, "") && MatchesGlob(newer, "") && older !in undeletable
    requires d.files[older].mtime < d.files[newer].mtime
    requires newer !in EnforceSpec(cfg, d, undeletable).files
    ensures older !in EnforceSpec(cfg, d, undeletable).files
  {
    var sorted := EvictionOrder(d);
    var ev := EnforceDeleted(cfg, d, undeletable);
    assert newer in ev;
    assert older in multiset(sorted) && newer in multiset(sorted);
    var i :| 0 <= i < |sorted| && sorted[i] == older;
    var j :| 0 <= j < |sorted| && sorted[j] == newer;
    var key := MTimeKey(d.files);
    assert key(older) < key(newer);
    KeyOrder(sorted, key, i, j);
    EvictPrefix(sorted, d.files, SizeOf(Glob(d.listing, ""), d.files), MaxBytes(cfg), undeletable, i, j);
  }

  /** The files `_enforce_size_limit` deletes: none, or those the eviction loop over the files oldest first deletes. */
  function EnforceDeleted(cfg: CacheConfig, d: Dir, undeletable: set<string>): (gone: seq<string>)
    requires WellFormed(d)
    ensures EnforceSpec(cfg, d, undeletable) == RemoveAll(d, Elems(gone))
  {
    var names := Glob(d.listing, "");
    var total := SizeOf(names, d.files);
    if !cfg.enabled || total as real <= MaxBytes(cfg) then
      RemoveNothing(d);
      assert Elems([]) == {};
      []
    else
      var sorted := EvictionOrder(d);
      assert sorted == SortBy(names, MTimeKey(d.files));
      Evict(sorted, d.files, total, MaxBytes(cfg), undeletable).deleted
  }

  /** In a list sorted by a key, an element with a strictly smaller key comes strictly earlier. */
  lemma KeyOrder<T>(s: seq<T>, key: T -> real, i: nat, j: nat)
    requires SortedBy(s, key) && i < |s| && j < |s| && key(s[i]) < key(s[j])
    ensures i < j
  {
  }

  /** Eviction only deletes Parquet files that can be deleted; every other file stays as it was. */
  lemma EnforceKeepsOthers(cfg: CacheConfig, d: Dir, undeletable: set<string>, name: string)
    requires WellFormed(d) && name in d.files && (!MatchesGlob(name, "") || name in undeletable)
    ensures name in EnforceSpec(cfg, d, undeletable).files
    ensures EnforceSpec(cfg, d, undeletable).files[name] == d.files[name]
  {
    var names := Glob(d.listing, "");
    var sorted := EvictionOrder(d);
    assert sorted == SortBy(names, MTimeKey(d.files));
    if name in sorted {
      assert name in multiset(sorted);
    }
  }

  /** Unlinking distinct Parquet files lowers the total size of the Parquet files by their sizes. */
  lemma RemainingSize(d: Dir, deleted: seq<string>)
    requires WellFormed(d) && Distinct(deleted)
    requires forall n :: n in deleted ==> n in d.files && MatchesGlob(n, "")
    ensures var d' := RemoveAll(d, Elems(deleted));
      SizeOf(Glob(d'.listing, ""), d'.files) == SizeOf(Glob(d.listing, ""), d.files) - SizeOf(deleted, d.files)
  {
    var names := Glob(d.listing, "");
    var gone := Elems(deleted);
    var d' := RemoveAll(d, gone);
    GlobKeep(d.listing, gone, "");
    var left := Keep(names, gone);
    SizeOfSameEntries(left, d.files, d'.files);
    SizeOfPartition(names, gone, d.files);
    var removed := Pick(names, gone);
    assert Elems(removed) == gone;
    DistinctSameNames(removed, deleted);
    SizeOfPermutation(removed, deleted, d.files);
  }

  /**
   * With every Parquet file deletable and a non-negative limit, the Parquet
   * files left after eviction fit the limit.
   */
  lemma EnforceReachesLimit(cfg: CacheConfig, d: Dir, undeletable: set<string>)
    requires cfg.enabled && WellFormed(d) && cfg.maxSizeGb >= 0.0
    requires forall n :: n in d.files && MatchesGlob(n, "") ==> n !in undeletable
    ensures var d' := EnforceSpec(cfg, d, undeletable);
      SizeOf(Glob(d'.listing, ""), d'.files) as real <= MaxBytes(cfg)
  {
    var names := Glob(d.listing, "");
    var total := SizeOf(names, d.files);
    if total as real > MaxBytes(cfg) {
      var sorted := EvictionOrder(d);
      assert sorted == SortBy(names, MTimeKey(d.files));
      SizeOfPermutation(names, sorted, d.files);
      var ev := Evict(sorted, d.files, total, MaxBytes(cfg), undeletable);
      assert forall n :: n in sorted ==> n in multiset(names);
      EvictReachesLimit(sorted, d.files, total, MaxBytes(cfg), undeletable);
      EvictRemaining(sorted, d.files, total, MaxBytes(cfg), undeletable);
      EvictDistinct(sorted, d.files, total, MaxBytes(cfg), undeletable);
      RemainingSize(d, ev.deleted);
    }
  }

  // ---------------------------------------------------- clear properties

  lemma {:induction false} DistinctCard(s: seq<string>)
    requires Distinct(s)
    ensures |Elems(s)| == |s|
  {
    if s != [] {
      var init := s[..|s| - 1];
      assert Distinct(init);
      DistinctCard(init);
      assert s == init + [s[|s| - 1]];
      assert s[|s| - 1] !in init;
      assert Elems(s) == Elems(init) + {s[|s| - 1]};
    }
  }

  lemma {:induction false} DeletableDistinct(names: seq<string>, undeletable: set<string>)
    requires Distinct(names)
    ensures Distinct(Deletable(names, undeletable))
  {
    if names != [] {
      var init := names[..|names| - 1];
      assert Distinct(init);
      DeletableDistinct(init, undeletable);
      assert names[|names| - 1] !in init;
    }
  }

  /**
   * `clear` deletes exactly the deletable files of its glob pattern and
   * counts them; every other file stays as it was.
   */
  lemma ClearDeletesMatching(cfg: CacheConfig, d: Dir, ticker: Option<string>, undeletable: set<string>)
    requires cfg.enabled && WellFormed(d)
    ensures var c := ClearSpec(cfg, d, ticker, undeletable);
      var chosen := set n | n in d.files && MatchesGlob(n, ClearPrefix(ticker)) && n !in undeletable;
      c.count == |chosen|
      && (forall n :: n in c.dir.files <==> n in d.files && n !in chosen)
      && (forall n :: n in c.dir.files ==> c.dir.files[n] == d.files[n])
  {
    var gone := Deletable(Glob(d.listing, ClearPrefix(ticker)), undeletable);
    DeletableDistinct(Glob(d.listing, ClearPrefix(ticker)), undeletable);
    DistinctCard(gone);
    var chosen := set n | n in d.files && MatchesGlob(n, ClearPrefix(ticker)) && n !in undeletable;
    assert Elems(gone) == chosen;
  }
}
