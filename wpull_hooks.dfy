/**
 * The hook callbacks grab-site installs into the wpull crawler, over the
 * module-level state they share: the ignore-set cache, the active ignore
 * patterns, the two file watchers, `job_data`, whether a monitor client is
 * connected, and the messages sent to it (the outbox).
 *
 * What the callbacks read from the working directory arrives as a `Files`
 * value; the remote ignore-set repository is a function from a set name to
 * its patterns (None: the fetch or its JSON failed); the ignore matcher is a
 * function from the active patterns, the URL and the record to the matched
 * pattern, if any.
 */
module WpullHooks {
  import opened Wrappers
  import opened Text
  import opened Watch
  import opened IgnoreConfig
  import opened JobStats
  import opened Icy

  /** wpull's `wpull_hook.actions` answers. */
  datatype Action = Normal | Stop | Finish

  /** The objects sent to the monitor; each `ignore` and `download` carries `job_data` as it was when sent. */
  datatype Message =
    | Hello(mode: string, url: string)
    | Download(jobData: JobData, url: string, responseCode: int, responseMessage: Option<string>)
    | Ignore(jobData: JobData, url: string, pattern: string)

  /**
   * The exceptions that end a rebuild: the assertion on an empty set name,
   * and a failed fetch of a named set.
   */
  datatype HookError = EmptySetName | FetchFailed(name: string)

  /**
   * What one callback sees in the working directory: the two mtime reads of
   * `igsets` and of `ignores` that `has_changed` makes, the two files'
   * contents, and whether `igoff` and `stop` exist. The contents are what a
   * text-mode `read()` returns: decoded, with every `\r\n` and lone `\r`
   * already turned into `\n` (universal newlines).
   */
  datatype Files = Files(
    igsetsMtimes: (real, real),
    ignoresMtimes: (real, real),
    igsetsText: string,
    ignoresText: string,
    igoff: bool,
    stop: bool)

  /** The remote ignore-set repository: a set name to its `patterns`, or None when fetching or decoding fails. */
  type Fetch = string -> Option<seq<string>>

  /**
   * `get_patterns_for_ignore_set` on a cache: the result and the new cache.
   * An empty name fails its assertion; a cached name is answered from the
   * cache; any other name is fetched and, when the fetch succeeds, cached.
   */
  function Lookup(cache: map<string, seq<string>>, name: string, remote: Fetch): (Result<seq<string>, HookError>, map<string, seq<string>>) {
    if name == "" then (Failure(EmptySetName), cache)
    else if name in cache then (Success(cache[name]), cache)
    else match remote(name)
      case None => (Failure(FetchFailed(name)), cache)
      case Some(patterns) => (Success(patterns), cache[name := patterns])
  }

  /** Entries of `before` are all still in `after`, unchanged. */
  predicate Extends(before: map<string, seq<string>>, after: map<string, seq<string>>) {
    forall n :: n in before ==> n in after && after[n] == before[n]
  }

  /**
   * A lookup never changes or drops a cached entry; a success leaves the
   * answer in the cache under the name; the only entry it may add is for
   * the name looked up, and only when the name was not cached and the fetch
   * succeeded.
   */
  lemma LookupCaches(cache: map<string, seq<string>>, name: string, remote: Fetch)
    ensures Extends(cache, Lookup(cache, name, remote).1)
    ensures Lookup(cache, name, remote).0.Success? ==>
      name in Lookup(cache, name, remote).1 && Lookup(cache, name, remote).1[name] == Lookup(cache, name, remote).0.value
    ensures Lookup(cache, name, remote).1.Keys == cache.Keys + (if name != "" && name !in cache && remote(name).Some? then {name} else {})
    ensures Lookup(cache, name, remote).0.Failure? ==> Lookup(cache, name, remote).1 == cache
  {
  }

  /**
   * Memoisation: once a name has been looked up successfully, looking it up
   * again, whatever the remote answers by then, gives the same patterns and
   * changes nothing.
   */
  lemma LookupMemoised(cache: map<string, seq<string>>, name: string, remote: Fetch, later: Fetch)
    requires Lookup(cache, name, remote).0.Success?
    ensures Lookup(Lookup(cache, name, remote).1, name, later) == Lookup(cache, name, remote)
  {
  }

  /** The fetch loop of `update_ignoracle`: looks the names up in order and stops at the first failure. */
  function FetchAll(cache: map<string, seq<string>>, names: seq<string>, remote: Fetch): (r: (Option<HookError>, map<string, seq<string>>))
    decreases names
    ensures Extends(cache, r.1)
    ensures r.0.None? ==> forall i :: 0 <= i < |names| ==> names[i] in r.1
  {
    if names == [] then (None, cache)
    else
      var (got, next) := Lookup(cache, names[0], remote);
      if got.Failure? then (Some(got.error), next)
      else
        var r := FetchAll(next, names[1..], remote);
        assert forall i :: 1 <= i < |names| ==> names[i] == names[1..][i - 1];
        r
  }

  /**
   * The fetch loop gets through the whole list exactly when every name is
   * non-empty and either cached already or fetchable.
   */
  lemma {:induction false} FetchAllOutcome(cache: map<string, seq<string>>, names: seq<string>, remote: Fetch)
    decreases names
    ensures FetchAll(cache, names, remote).0.None? <==>
      forall i :: 0 <= i < |names| ==> names[i] != "" && (names[i] in cache || remote(names[i]).Some?)
  {
    if names != [] {
      var (got, next) := Lookup(cache, names[0], remote);
      LookupCaches(cache, names[0], remote);
      if got.Success? {
        FetchAllOutcome(next, names[1..], remote);
        assert forall i :: 1 <= i < |names| ==> names[i] == names[1..][i - 1];
      }
    }
  }

  /**
   * One turn of the fetch loop at position `i`, from cache `before` to
   * cache `after`: a failed lookup is the outcome of the whole loop; a
   * successful one leaves the rest of the loop to run on `after` and adds
   * the set's contribution to the patterns gathered so far.
   */
  lemma FetchStep(start: map<string, seq<string>>, names: seq<string>, lines: set<string>, i: int,
                  before: map<string, seq<string>>, after: map<string, seq<string>>,
                  got: Result<seq<string>, HookError>, remote: Fetch)
    requires 0 <= i < |names|
    requires forall k :: 0 <= k < i ==> names[k] in before
    requires FetchAll(start, names, remote) == FetchAll(before, names[i..], remote)
    requires (got, after) == Lookup(before, names[i], remote)
    ensures got.Failure? ==> FetchAll(start, names, remote) == (Some(got.error), after)
    ensures got.Success? ==> forall k :: 0 <= k < i + 1 ==> names[k] in after
    ensures got.Success? ==> FetchAll(start, names, remote) == FetchAll(after, names[i + 1..], remote)
    ensures got.Success? ==> (ActivePatterns(lines, names[..i + 1], after) ==
      ActivePatterns(lines, names[..i], before) + Contributed(names[i], got.value))
  {
    assert names[i..][0] == names[i];
    assert names[i..][1..] == names[i + 1..];
    if got.Success? {
      LookupCaches(before, names[i], remote);
      ActivePatternsCacheGrowth(lines, names[..i], before, after);
      assert names[..i + 1][..i] == names[..i];
    }
  }

  /** The filter the loop of `update_ignoracle` applies to the `global` set is `Contributed`. */
  lemma ContributedFilter(name: string, patterns: seq<string>)
    ensures name == GlobalSet ==> Contributed(name, patterns) == set p | p in patterns && !Contains(p, ArchiveOrg)
    ensures name != GlobalSet ==> Contributed(name, patterns) == set p | p in patterns
  {
  }

  /**
   * The outcome of `update_ignoracle`: the error it raises (if any), the
   * cache afterwards, and the ignore patterns afterwards. On success the
   * patterns are rebuilt from scratch out of the two texts; on failure
   * they are left as they were (the cache keeps what was fetched before
   * the failure).
   */
  function Rebuilt(cache: map<string, seq<string>>, patterns: set<string>, igsetsText: string, ignoresText: string, remote: Fetch)
    : (Option<HookError>, map<string, seq<string>>, set<string>)
  {
    var names := ParseIgsets(igsetsText);
    var (err, after) := FetchAll(cache, names, remote);
    if err.Some? then (err, after, patterns)
    else (None, after, ActivePatterns(ParseIgnores(ignoresText), names, after))
  }

  /**
   * Hot reload: a rebuild that succeeds depends only on the two texts and
   * the cache, not on the patterns before it, and a pattern is active after
   * it exactly when it is an `ignores` line or comes from a listed set (minus
   * archive\.org patterns of `global`).
   */
  lemma RebuiltPatterns(cache: map<string, seq<string>>, before: set<string>, igsetsText: string, ignoresText: string, remote: Fetch, p: string)
    requires Rebuilt(cache, before, igsetsText, ignoresText, remote).0.None?
    ensures forall other :: Rebuilt(cache, other, igsetsText, ignoresText, remote) == Rebuilt(cache, before, igsetsText, ignoresText, remote)
    ensures var (_, after, active) := Rebuilt(cache, before, igsetsText, ignoresText, remote);
      var names := ParseIgsets(igsetsText);
      p in active <==> (p in ParseIgnores(ignoresText) ||
        exists i :: 0 <= i < |names| && p in after[names[i]] && !(names[i] == GlobalSet && Contains(p, ArchiveOrg)))
  {
    var names := ParseIgsets(igsetsText);
    ActivePatternsMembership(ParseIgnores(ignoresText), names, FetchAll(cache, names, remote).1, p);
  }

  /** An `igsets` text that is blank after stripping makes every rebuild fail on the empty name. */
  lemma BlankIgsetsFails(cache: map<string, seq<string>>, patterns: set<string>, igsetsText: string, ignoresText: string, remote: Fetch)
    requires AllIn(igsetsText, IgsetsStripChars)
    ensures Rebuilt(cache, patterns, igsetsText, ignoresText, remote) == (Some(EmptySetName), cache, patterns)
  {
    BlankIgsetsYieldEmptyName(igsetsText);
  }

  /**
   * `a,,b` in `igsets` fails the rebuild on the empty name between the
   * commas, once `a` itself is cached or fetchable.
   */
  lemma DoubleCommaFails(cache: map<string, seq<string>>, patterns: set<string>, ignoresText: string, remote: Fetch)
    requires "a" in cache || remote("a").Some?
    ensures Rebuilt(cache, patterns, "a,,b", ignoresText, remote).0 == Some(EmptySetName)
  {
    DoubleCommaYieldsEmptyName();
    var names := ["a", "", "b"];
    var (got, next) := Lookup(cache, "a", remote);
    assert got.Success?;
    assert names[1..] == ["", "b"];
  }

  /**
   * The first line of `accept_url` seen from outside: whether a change was
   * seen, and the times the `igsets` and `ignores` watchers store.
   */
  datatype Watched = Watched(changed: bool, igsetsLast: real, ignoresLast: real)

  /**
   * `igsets_watcher.has_changed() or ignores_watcher.has_changed()` from the
   * stored times `igsetsLast` and `ignoresLast`: the `ignores` watcher is
   * polled, and its stored time moved, only when `igsets` reports no change.
   */
  function PollWatchers(files: Files, igsetsLast: real, ignoresLast: real): Watched {
    var igsets := HasChangedSpec(igsetsLast, files.igsetsMtimes.0, files.igsetsMtimes.1);
    if igsets.changed then Watched(true, igsets.stored, ignoresLast)
    else
      var ignores := HasChangedSpec(ignoresLast, files.ignoresMtimes.0, files.ignoresMtimes.1);
      Watched(ignores.changed, igsets.stored, ignores.stored)
  }

  /**
   * The patterns `accept_url` matches against: rebuilt when the polled
   * watchers report a change, otherwise as they were.
   */
  function Refresh(cache: map<string, seq<string>>, patterns: set<string>, files: Files, igsetsLast: real, ignoresLast: real, remote: Fetch)
    : (Option<HookError>, map<string, seq<string>>, set<string>)
  {
    if PollWatchers(files, igsetsLast, ignoresLast).changed
    then Rebuilt(cache, patterns, files.igsetsText, files.ignoresText, remote)
    else (None, cache, patterns)
  }

  /** Whether the mtimes each watcher reads stay put during one call. */
  predicate Steady(files: Files) {
    files.igsetsMtimes.0 == files.igsetsMtimes.1 && files.ignoresMtimes.0 == files.ignoresMtimes.1
  }

  /**
   * When both files changed, the first call rebuilds on the `igsets` change
   * and, by the short-circuit, leaves the `ignores` watcher's stored time
   * stale; so a second call with the very same, steady files rebuilds again.
   */
  lemma BothChangedRebuildsTwice(cache: map<string, seq<string>>, patterns: set<string>, files: Files,
                                 igsetsLast: real, ignoresLast: real, remote: Fetch)
    requires Steady(files)
    requires files.igsetsMtimes.1 != igsetsLast && files.ignoresMtimes.1 != ignoresLast
    ensures Refresh(cache, patterns, files, igsetsLast, ignoresLast, remote) ==
      Rebuilt(cache, patterns, files.igsetsText, files.ignoresText, remote)
    ensures PollWatchers(files, igsetsLast, ignoresLast).ignoresLast == ignoresLast
    ensures var first := PollWatchers(files, igsetsLast, ignoresLast);
      var (_, cache', patterns') := Refresh(cache, patterns, files, igsetsLast, ignoresLast, remote);
      Refresh(cache', patterns', files, first.igsetsLast, first.ignoresLast, remote) ==
        Rebuilt(cache', patterns', files.igsetsText, files.ignoresText, remote)
  {
  }

  /**
   * With steady files the watchers settle: the third call never rebuilds,
   * and the second does not either when the first saw no `igsets` change.
   */
  lemma SteadyFilesSettle(cache: map<string, seq<string>>, patterns: set<string>, files: Files,
                          igsetsLast: real, ignoresLast: real, remote: Fetch)
    requires Steady(files)
    ensures var first := PollWatchers(files, igsetsLast, ignoresLast);
      var second := PollWatchers(files, first.igsetsLast, first.ignoresLast);
      Refresh(cache, patterns, files, second.igsetsLast, second.ignoresLast, remote) == (None, cache, patterns) &&
      PollWatchers(files, second.igsetsLast, second.ignoresLast) == second.(changed := false)
    ensures files.igsetsMtimes.1 == igsetsLast ==>
      var first := PollWatchers(files, igsetsLast, ignoresLast);
      Refresh(cache, patterns, files, first.igsetsLast, first.ignoresLast, remote) == (None, cache, patterns)
  {
  }

  /** Python truthiness of the matcher's answer: a match on the empty pattern counts as none. */
  predicate Matched(m: Option<string>) {
    m.Some? && m.value != ""
  }

  /** The verdict of `accept_url` once the patterns are current. */
  function Admit(url: string, matched: Option<string>, verdict: bool): bool {
    if StartsWith(url, "data:") then false
    else if Matched(matched) then false
    else verdict
  }

  /**
   * `accept_url` only narrows the engine's verdict: `data:` URLs and
   * matched URLs are refused, and any other URL gets the engine's verdict.
   */
  lemma AdmitNarrows(url: string, matched: Option<string>, verdict: bool)
    ensures Admit(url, matched, verdict) ==> verdict
    ensures StartsWith(url, "data:") ==> !Admit(url, matched, verdict)
    ensures Matched(matched) ==> !Admit(url, matched, verdict)
    ensures !StartsWith(url, "data:") && !Matched(matched) ==> Admit(url, matched, verdict) == verdict
  {
  }

  /**
   * The effect of `maybe_log_ignore` on `job_data` and the outbox:
   * `suppress_ignore_reports` becomes the existence of `igoff`, and one
   * `ignore` message is sent when `igoff` is absent and a client is connected.
   */
  function LogIgnore(job: JobData, outbox: seq<Message>, client: bool, url: string, pattern: string, igoff: bool): (JobData, seq<Message>) {
    var job' := job.(suppressIgnoreReports := igoff);
    (job', if !igoff && client then outbox + [Ignore(job', url, pattern)] else outbox)
  }

  /**
   * What `handle_result` does to `job_data` keeps the identity fields and
   * never lowers a counter, whether or not `igoff` exists.
   */
  lemma ResultAdvances(job: JobData, igoff: bool, http: HttpInfo)
    ensures Advances(job, Tally(job.(suppressIgnoreReports := igoff), http))
  {
    TallyEffect(job.(suppressIgnoreReports := igoff), http);
  }

  /** The `response_code` a `download` message reports: 0 on error, else the code entry (0 when absent). */
  function ReportedCode(error: Option<string>, http: HttpInfo): int {
    if error.Some? then 0
    else match http.responseCode
      case None => 0
      case Some(code) => code
  }

  /** The `response_message` a `download` message reports: the error text on error, else the message entry. */
  function ReportedMessage(error: Option<string>, http: HttpInfo): Option<string> {
    if error.Some? then Some(error.value) else http.responseMessage
  }

  class HookState {
    const igsetsWatcher: FileChangedWatcher
    const ignoresWatcher: FileChangedWatcher
    /** `igset_cache`. */
    var igsetCache: map<string, seq<string>>
    /** Every successful fetch of a named set, in order. */
    ghost var fetched: seq<string>
    /** The patterns last handed to the ignoracle. */
    var patterns: set<string>
    var job: JobData
    /** Whether `ws_factory.client` is set. */
    var client: bool
    /**
     * The `hello`, `download` and `ignore` messages sent to the monitor, in
     * order; forwarded stdout and stderr writes are not modelled.
     */
    var outbox: seq<Message>

    /**
     * The two watchers are distinct objects, no set is cached under the
     * empty name, and the log of fetches holds each cached name exactly
     * once and nothing else.
     */
    ghost predicate Valid()
      reads this
    {
      && igsetsWatcher != ignoresWatcher
      && "" !in igsetCache
      && multiset(fetched) == multiset(igsetCache.Keys)
    }

    /**
     * The state at module load, before the first `update_ignoracle`:
     * watchers holding the current mtimes, an empty cache, no patterns, the
     * initial `job_data` and no client.
     */
    constructor (ident: string, url: string, startedAt: real, concurrency: int, igsetsMtime: real, ignoresMtime: real)
      ensures Valid() && fresh(igsetsWatcher) && fresh(ignoresWatcher)
      ensures igsetsWatcher.lastMtime == igsetsMtime && ignoresWatcher.lastMtime == ignoresMtime
      ensures igsetCache == map[] && fetched == [] && patterns == {}
      ensures job == InitialJobData(ident, url, startedAt, concurrency)
      ensures !client && outbox == []
    {
      igsetsWatcher := new FileChangedWatcher("igsets", igsetsMtime);
      ignoresWatcher := new FileChangedWatcher("ignores", ignoresMtime);
      igsetCache := map[];
      fetched := [];
      patterns := {};
      job := InitialJobData(ident, url, startedAt, concurrency);
      client := false;
      outbox := [];
    }

    /** `on_open`: the client is set, and it greets the monitor with the crawl's URL. */
    method OnOpen()
      modifies this`client, this`outbox
      ensures client && outbox == old(outbox) + [Hello("grabber", job.url)]
    {
      client := true;
      outbox := outbox + [Hello("grabber", job.url)];
    }

    /** `on_close`: the client is cleared; later sends are dropped. */
    method OnClose()
      modifies this`client
      ensures !client
    {
      client := false;
    }

    /**
     * `get_patterns_for_ignore_set`: the remote is consulted only for a
     * non-empty name that is not cached, and a successful fetch is cached
     * and logged.
     */
    method GetPatternsForIgnoreSet(name: string, remote: Fetch) returns (r: Result<seq<string>, HookError>)
      requires Valid()
      modifies this`igsetCache, this`fetched
      ensures Valid()
      ensures (r, igsetCache) == Lookup(old(igsetCache), name, remote)
      ensures fetched == old(fetched) + (if name != "" && name !in old(igsetCache) && remote(name).Some? then [name] else [])
    {
      if name == "" {
        return Failure(EmptySetName);
      }
      if name in igsetCache {
        return Success(igsetCache[name]);
      }
      match remote(name)
      case None =>
        r := Failure(FetchFailed(name));
      case Some(got) =>
        igsetCache := igsetCache[name := got];
        fetched := fetched + [name];
        r := Success(igsetCache[name]);
    }

    /**
     * The loop of `update_ignoracle`: fetches the listed sets through the
     * cache, in order, adding each one's contribution to `ignores`, and
     * stops at the first failure.
     */
    method GatherIgnoreSets(igsets: seq<string>, ignores: set<string>, remote: Fetch) returns (err: Option<HookError>, gathered: set<string>)
      requires Valid()
      modifies this`igsetCache, this`fetched
      ensures Valid()
      ensures (err, igsetCache) == FetchAll(old(igsetCache), igsets, remote)
      ensures err.None? ==> gathered == ActivePatterns(ignores, igsets, igsetCache)
    {
      ghost var start := igsetCache;
      gathered := ignores;
      var i := 0;
      while i < |igsets|
        invariant Valid()
        invariant 0 <= i <= |igsets|
        invariant forall k :: 0 <= k < i ==> igsets[k] in igsetCache
        invariant FetchAll(start, igsets, remote) == FetchAll(igsetCache, igsets[i..], remote)
        invariant gathered == ActivePatterns(ignores, igsets[..i], igsetCache)
      {
        var igset := igsets[i];
        ghost var before := igsetCache;
        var got := GetPatternsForIgnoreSet(igset, remote);
        FetchStep(start, igsets, ignores, i, before, igsetCache, got, remote);
        if got.Failure? {
          err := Some(got.error);
          return;
        }
        var contributed: set<string>;
        if igset == GlobalSet {
          contributed := set p | p in got.value && !Contains(p, ArchiveOrg);
        } else {
          contributed := set p | p in got.value;
        }
        ContributedFilter(igset, got.value);
        gathered := gathered + contributed;
        i := i + 1;
      }
      assert igsets[..i] == igsets;
      err := None;
    }

    /**
     * `update_ignoracle`: parses both texts, gathers the listed sets, and
     * replaces the patterns with the union; a failure is returned and
     * leaves the patterns as they were.
     */
    method UpdateIgnoracle(igsetsText: string, ignoresText: string, remote: Fetch) returns (err: Option<HookError>)
      requires Valid()
      modifies this`igsetCache, this`fetched, this`patterns
      ensures Valid()
      ensures (err, igsetCache, patterns) == Rebuilt(old(igsetCache), old(patterns), igsetsText, ignoresText, remote)
    {
      var igsets := ParseIgsets(igsetsText);
      var ignores := ParseIgnores(ignoresText);
      var gathered;
      err, gathered := GatherIgnoreSets(igsets, ignores, remote);
      if err.None? {
        patterns := gathered;
      }
    }

    /** `update_igoff_in_job_data`: `suppress_ignore_reports` becomes, and is returned as, the existence of `igoff`. */
    method UpdateIgoffInJobData(igoff: bool) returns (r: bool)
      modifies this`job
      ensures r == igoff
      ensures job == old(job).(suppressIgnoreReports := igoff)
    {
      job := job.(suppressIgnoreReports := igoff);
      r := igoff;
    }

    /** `maybe_log_ignore`: reports an ignored URL unless `igoff` exists or no client is connected. */
    method MaybeLogIgnore(url: string, pattern: string, igoff: bool)
      modifies this`job, this`outbox
      ensures (job, outbox) == LogIgnore(old(job), old(outbox), client, url, pattern, igoff)
      ensures Advances(old(job), job)
    {
      var suppressed := UpdateIgoffInJobData(igoff);
      if !suppressed {
        if client {
          outbox := outbox + [Ignore(job, url, pattern)];
        }
      }
    }

    /**
     * The first line of `accept_url`: the `ignores` watcher is polled only
     * when the `igsets` watcher reports no change, and a change from either
     * triggers `update_ignoracle`.
     */
    method RefreshIgnoracle(files: Files, remote: Fetch) returns (err: Option<HookError>)
      requires Valid()
      modifies this`igsetCache, this`fetched, this`patterns, igsetsWatcher, ignoresWatcher
      ensures Valid()
      ensures var w := PollWatchers(files, old(igsetsWatcher.lastMtime), old(ignoresWatcher.lastMtime));
        igsetsWatcher.lastMtime == w.igsetsLast && ignoresWatcher.lastMtime == w.ignoresLast
      ensures (err, igsetCache, patterns) ==
        Refresh(old(igsetCache), old(patterns), files, old(igsetsWatcher.lastMtime), old(ignoresWatcher.lastMtime), remote)
    {
      var changed := igsetsWatcher.HasChanged(files.igsetsMtimes.0, files.igsetsMtimes.1);
      if !changed {
        changed := ignoresWatcher.HasChanged(files.ignoresMtimes.0, files.ignoresMtimes.1);
      }
      err := None;
      if changed {
        err := UpdateIgnoracle(files.igsetsText, files.ignoresText, remote);
      }
    }

    /**
     * `accept_url`. A failed rebuild is raised before the URL is looked at.
     * Otherwise the answer is `Admit` on the current patterns: `data:` URLs
     * are refused without matching or reporting, matched URLs are refused
     * and reported, and any other URL gets the engine's verdict.
     */
    method AcceptUrl<R>(url: string, record: R, verdict: bool, files: Files, remote: Fetch,
                        matcher: (set<string>, string, R) -> Option<string>)
      returns (r: Result<bool, HookError>)
      requires Valid()
      modifies this`igsetCache, this`fetched, this`patterns, this`job, this`outbox, igsetsWatcher, ignoresWatcher
      ensures Valid()
      ensures var w := PollWatchers(files, old(igsetsWatcher.lastMtime), old(ignoresWatcher.lastMtime));
        igsetsWatcher.lastMtime == w.igsetsLast && ignoresWatcher.lastMtime == w.ignoresLast
      ensures var (err, cache, active) := Refresh(old(igsetCache), old(patterns), files, old(igsetsWatcher.lastMtime), old(ignoresWatcher.lastMtime), remote);
        igsetCache == cache && patterns == active && (r.Failure? <==> err.Some?) && (r.Failure? ==> r.error == err.value)
      ensures r.Failure? ==> job == old(job) && outbox == old(outbox)
      ensures r.Success? ==> r.value == Admit(url, matcher(patterns, url, record), verdict)
      ensures r.Success? && !StartsWith(url, "data:") && Matched(matcher(patterns, url, record)) ==>
        (job, outbox) == LogIgnore(old(job), old(outbox), client, url, matcher(patterns, url, record).value, files.igoff)
      ensures r.Success? && (StartsWith(url, "data:") || !Matched(matcher(patterns, url, record))) ==>
        job == old(job) && outbox == old(outbox)
    {
      var err := RefreshIgnoracle(files, remote);
      if err.Some? {
        return Failure(err.value);
      }
      if StartsWith(url, "data:") {
        return Success(false);
      }
      var pattern := matcher(patterns, url, record);
      if Matched(pattern) {
        MaybeLogIgnore(url, pattern.value, files.igoff);
        return Success(false);
      }
      return Success(verdict);
    }

    /** `queued_url`: one more item queued, nothing else changes. */
    method QueuedUrl()
      modifies this`job
      ensures job == old(job).(itemsQueued := old(job).itemsQueued + 1)
      ensures Advances(old(job), job)
    {
      job := job.(itemsQueued := job.itemsQueued + 1);
    }

    /** `dequeued_url`: one more item downloaded, nothing else changes. */
    method DequeuedUrl()
      modifies this`job
      ensures job == old(job).(itemsDownloaded := old(job).itemsDownloaded + 1)
      ensures Advances(old(job), job)
    {
      job := job.(itemsDownloaded := job.itemsDownloaded + 1);
    }

    /**
     * `handle_result`: refreshes `suppress_ignore_reports`, tallies the
     * response class and body size, sends one `download` message when a
     * client is connected, and answers STOP exactly when the `stop` file
     * exists.
     */
    method HandleResult(url: string, error: Option<string>, http: HttpInfo, files: Files) returns (action: Action)
      modifies this`job, this`outbox
      ensures job == Tally(old(job).(suppressIgnoreReports := files.igoff), http)
      ensures outbox == old(outbox) + (if client then [Download(job, url, ReportedCode(error, http), ReportedMessage(error, http))] else [])
      ensures action == if files.stop then Stop else Normal
    {
      var _ := UpdateIgoffInJobData(files.igoff);
      var counted := job;
      var responseCode := 0;
      if http.responseCode.Some? && http.responseCode.value != 0 {
        responseCode := http.responseCode.value;
        var codeText := IntToString(http.responseCode.value);
        if |codeText| == 3 && codeText[0] in "12345" {
          counted := Bump(counted, ClassOfCodeText(codeText));
        } else {
          counted := Bump(counted, Runk);
        }
      }
      if http.contentSize.Some? {
        counted := counted.(bytesDownloaded := counted.bytesDownloaded + http.contentSize.value);
      }
      job := counted;
      var stop := files.stop;
      var responseMessage := http.responseMessage;
      if error.Some? {
        responseCode := 0;
        responseMessage := Some(error.value);
      }
      if client {
        outbox := outbox + [Download(job, url, responseCode, responseMessage)];
      }
      if stop {
        return Stop;
      }
      return Normal;
    }

    /** `handle_response`: a result without error. */
    method HandleResponse(url: string, http: HttpInfo, files: Files) returns (action: Action)
      modifies this`job, this`outbox
      ensures job == Tally(old(job).(suppressIgnoreReports := files.igoff), http)
      ensures outbox == old(outbox) + (if client then [Download(job, url, ReportedCode(None, http), http.responseMessage)] else [])
      ensures action == if files.stop then Stop else Normal
    {
      action := HandleResult(url, None, http, files);
    }

    /** `handle_error`: a result with the error text and no HTTP information; the code reported is 0. */
    method HandleError(url: string, error: string, files: Files) returns (action: Action)
      modifies this`job, this`outbox
      ensures job == old(job).(suppressIgnoreReports := files.igoff)
      ensures outbox == old(outbox) + (if client then [Download(job, url, 0, Some(error))] else [])
      ensures action == if files.stop then Stop else Normal
    {
      action := HandleResult(url, Some(error), NoHttpInfo, files);
    }

    /**
     * `handle_pre_response`: an ICY response is reported as ignored (subject
     * to `igoff` and the client) and answered FINISH; any other is NORMAL
     * and changes nothing.
     */
    method HandlePreResponse(url: string, version: Option<string>, fields: seq<Field>, files: Files) returns (action: Action)
      modifies this`job, this`outbox
      ensures action == if IcyPattern(version, fields).Some? then Finish else Normal
      ensures IcyPattern(version, fields).Some? ==>
        (job, outbox) == LogIgnore(old(job), old(outbox), client, url, IcyPattern(version, fields).value, files.igoff)
      ensures IcyPattern(version, fields).None? ==> job == old(job) && outbox == old(outbox)
    {
      if version == Some("ICY") {
        MaybeLogIgnore(url, IcyVersion, files.igoff);
        return Finish;
      }
      var i := 0;
      while i < |fields|
        invariant 0 <= i <= |fields|
        invariant ScanFields(fields) == ScanFields(fields[i..])
        invariant job == old(job) && outbox == old(outbox)
      {
        assert fields[i..][1..] == fields[i + 1..];
        var (field, value) := fields[i];
        if IsIcyFieldName(field) {
          MaybeLogIgnore(url, IcyField, files.igoff);
          return Finish;
        }
        if field == "Server" && StartsWithIgnoreCase(value, "icecast") {
          MaybeLogIgnore(url, IcyServer, files.igoff);
          return Finish;
        }
        i := i + 1;
      }
      return Normal;
    }
  }
}
