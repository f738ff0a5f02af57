# grab-site crawl hooks, modelled in Dafny

grab-site drives the wpull crawler through a set of hook callbacks, all in
`libgrabsite/wpull_hooks.py`. Around a websocket client, an asyncio loop and
stdout patching, these callbacks carry a small set of stateful rules:

- **Reconnect back-off.** `Decayer` produces the delays between failed
  attempts to reach the monitor server.
- **Ignore rules with hot reload.** Two `FileChangedWatcher`s watch the `igsets` and `ignores` files. When either changes,
  `update_ignoracle` rebuilds the ignore patterns. It parses both files and fetches the named ignore sets through a memoising cache
  (`get_patterns_for_ignore_set`).
- **URL admission.** `accept_url` refuses `data:` URLs and URLs that an
  ignore pattern matches, and otherwise keeps the crawler's own verdict.
- **Counters and reports.** `job_data` keeps the counters. `queued_url`,
  `dequeued_url` and `handle_result` update them, and the latter also reports
  each download to the monitor and answers STOP when the `stop` file exists.
  Ignored URLs are reported by `maybe_log_ignore`, unless the `igoff` file
  exists or no monitor client is connected.
- **Stream detection.** `handle_pre_response` finishes ICY / Icecast streams
  before their body is downloaded.

How the model is laid out:

| module | file | what it holds |
|---|---|---|
| `Backoff` | `backoff.dfy` | `Decayer` as a class whose `current` field `Reset` and `Decay` update in place; the step function it is proved against; the retry loop of `connect_to_server` as a method over the sequence of attempt outcomes. |
| `Watch` | `watch.dfy` | `FileChangedWatcher` as a class over `lastMtime`. |
| `Text` | `text.dfy` | Python's `strip`, `split`, `startswith` and `in` on strings, with their properties as lemmas. |
| `IgnoreConfig` | `ignore_config.dfy` | The `igsets` and `ignores` text formats, and the set of active patterns. |
| `JobStats` | `job_stats.dfy` | The `job_data` record, response-code buckets, and the tally of one result. |
| `Icy` | `icy.dfy` | The ICY decision. |
| `WpullHooks` | `wpull_hooks.dfy` | The module-level state of the hooks as one class, `HookState`. |

`HookState` holds:
- the ignore-set cache;
- the active patterns;
- the two watchers;
- `job_data`;
- whether a client is connected;
- an outbox of the messages sent.

Every registered hook except `exit_status` is a method on this class.

The environment comes in as values:
- **Files.** The mtime reads, file contents and file existence a callback sees arrive as a `Files` value. The contents are what `open(..., "r").read()` returns in text mode: decoded, with universal newlines already applied, so every `\r\n` and lone `\r` has become `\n`.
- **Remote ignore sets.** The repository is a function from a set name to its patterns. It returns `None` when the download or its JSON fails.
- **Ignore matcher.** Matching is a function from the active patterns, the URL and the record to the matched pattern, if any.
- **Connection attempts.** The outcome of each attempt to reach the monitor is an input sequence.

Exceptions become results. The `assert` on an empty set name and a failed fetch are the two `HookError`s, and `AcceptUrl` returns them where the Python hook would raise.

The code never calls `Decayer.reset` after a successful connection.
Instead, `connect_to_server` builds a fresh `Decayer(0.25, 1.5, 8)` on every
invocation (`libgrabsite/wpull_hooks.py:80`), and `on_close` starts a new
invocation after each disconnect (`libgrabsite/wpull_hooks.py:34`). So each
reconnect sequence starts again at 0.25 s. `ConnectToServer` models exactly that.

Two behaviours of the file watchers follow from the code and are proved as
lemmas.
- A change that lands between the two mtime reads of one `has_changed()` call
  is reported twice (`Watch.ChangeBetweenReadsReportedTwice`).
- In `accept_url`, the `or` on line 174 short-circuits. When `igsets` reports a
  change, the `ignores` watcher is not polled and its stored time stays stale.
  If both files changed, the next call therefore rebuilds a second time, even
  though neither file changed in between (`WpullHooks.BothChangedRebuildsTwice`).
  With steady files the watchers settle: the third call never rebuilds
  (`WpullHooks.SteadyFilesSettle`).

## Model

| member | source | states |
|---|---|---|
| Backoff.Step | libgrabsite/wpull_hooks.py:71-73 | One `decay()` result is at most `maximum`, at most `current * multiplier`, and equal to one of the two. |
| Backoff.After | libgrabsite/wpull_hooks.py:71-73 | The value `current` holds after k `decay()` calls from a given start, each one step of `min(current * multiplier, maximum)`. |
| Backoff.Decayer.constructor | libgrabsite/wpull_hooks.py:54-63 | Construction stores the three parameters and leaves `current` at `initial / multiplier`, as the `reset()` call in `__init__` does. |
| Backoff.Decayer.Reset | libgrabsite/wpull_hooks.py:65-69 | `reset()` stores and returns `initial / multiplier`. When `initial <= maximum`, the next decay step from there gives exactly `initial`. |
| Backoff.Decayer.Decay | libgrabsite/wpull_hooks.py:71-73 | `decay()` stores one step from the old `current`, returns the stored value, and that value is at most `maximum`. |
| Backoff.FirstDecayAfterReset | libgrabsite/wpull_hooks.py:65-73 | After a reset, the first decay yields exactly `initial` when `initial <= maximum` (exact arithmetic). |
| Backoff.AfterResetClosedForm | libgrabsite/wpull_hooks.py:65-73 | With `multiplier >= 1` and `maximum >= 0`, the (k+1)-th decay after a reset yields `min(initial * multiplier^k, maximum)`. |
| Backoff.DecayNondecreasing | libgrabsite/wpull_hooks.py:65-73 | With `multiplier >= 1`, `initial >= 0` and `maximum >= 0`, successive decay results after a reset are non-negative and never decrease. |
| Backoff.ConnectToServer | libgrabsite/wpull_hooks.py:77-92 | The loop stops at the first successful attempt and sleeps once per failure before it. It reports a connection exactly when some attempt succeeds. The i-th delay of a fresh `Decayer(0.25, 1.5, 8)` is `min(0.25 * 1.5^i, 8)`. The delays are non-decreasing and lie in [0, 8]. |
| Watch.FileChangedWatcher.constructor | libgrabsite/wpull_hooks.py:128-130 | A new watcher stores its file name and the mtime read at construction. |
| Watch.FileChangedWatcher.HasChanged | libgrabsite/wpull_hooks.py:132-136 | `has_changed()` answers whether the second mtime read differs from the stored time, and stores the first read. |
| Watch.HasChangedSpec | libgrabsite/wpull_hooks.py:132-136 | One `has_changed()` call seen from outside: it answers whether the second mtime read differs from the stored time, and stores the first read. |
| Watch.SteadyFileReportsOnce | libgrabsite/wpull_hooks.py:132-136 | While the file's mtime stays put, a poll reports a change only if the stored time differs, and the poll after it reports none. |
| Watch.ChangeBetweenReadsReportedTwice | libgrabsite/wpull_hooks.py:132-136 | A modification that falls between the two reads of one call is reported by that call and again by the next one, and only then settles. |
| Text.Strip | libgrabsite/wpull_hooks.py:146 | `str.strip(chars)`: drops the longest prefix and then the longest suffix made of the given characters (properties in `Text.StripSpec`). |
| Text.Split | libgrabsite/wpull_hooks.py:146 | `str.split(sep)` for a one-character separator: the pieces between successive separators, at least one (properties in `Text.SplitSpec`). |
| Text.LStripSpec | libgrabsite/wpull_hooks.py:146 | The left half of `str.strip`: what remains is a suffix that does not start with a stripped character, and what was removed consists only of stripped characters. |
| Text.RStripSpec | libgrabsite/wpull_hooks.py:146 | The right half of `str.strip`: what remains is a prefix that does not end with a stripped character, and what was removed consists only of stripped characters. |
| Text.StripSpec | libgrabsite/wpull_hooks.py:146 | `str.strip(chars)` gives a slice of the input that neither starts nor ends with a stripped character, and only stripped characters are cut off on either side. |
| Text.StripAll | libgrabsite/wpull_hooks.py:146 | A text made only of stripped characters strips to the empty string. |
| Text.SplitSpec | libgrabsite/wpull_hooks.py:146 | `str.split(sep)` gives at least one piece. No piece holds the separator, and joining the pieces with it gives back the input. |
| Text.SplitJoin | libgrabsite/wpull_hooks.py:146 | Splitting a join of separator-free pieces gives back exactly those pieces. |
| Text.IndexOf | libgrabsite/wpull_hooks.py:146 | The separator's first occurrence, which is where `split` cuts. |
| IgnoreConfig.ParseIgsets | libgrabsite/wpull_hooks.py:146 | The `igsets` text stripped of CR, LF, tab, space and comma at both ends, then split on commas: the set names in order, repeats and empty names kept. |
| IgnoreConfig.ParseIgsetsNames | libgrabsite/wpull_hooks.py:146 | The `igsets` text always yields at least one name, and no name holds a comma. |
| IgnoreConfig.IgsetsRoundTrip | libgrabsite/wpull_hooks.py:146 | Comma-joined names parse back to the same list, repeats and empty names included. The text must not start or end with a stripped character. |
| IgnoreConfig.BlankIgsetsYieldEmptyName | libgrabsite/wpull_hooks.py:146 | An `igsets` text of only whitespace and commas yields the single name `""`. |
| IgnoreConfig.DoubleCommaYieldsEmptyName | libgrabsite/wpull_hooks.py:146 | `a,,b` yields `a`, `""` and `b`. |
| IgnoreConfig.ParseIgnores | libgrabsite/wpull_hooks.py:149 | The `ignores` text stripped of CR and LF at both ends and split on LF: the set of its non-empty lines. |
| IgnoreConfig.ParseIgnoresLines | libgrabsite/wpull_hooks.py:149 | Every pattern read from `ignores` is non-empty and free of line feeds. |
| IgnoreConfig.IgnoresRoundTrip | libgrabsite/wpull_hooks.py:149 | Patterns written one per line parse back to the set of those patterns. |
| IgnoreConfig.Contributed | libgrabsite/wpull_hooks.py:153-155 | What one named set adds to the ignores: its patterns, minus those containing `archive\.org` when the set is `global`. |
| IgnoreConfig.ActivePatterns | libgrabsite/wpull_hooks.py:151-155 | The patterns after the union loop: the `ignores` lines together with what every listed set contributes from the cache. |
| IgnoreConfig.ActivePatternsMembership | libgrabsite/wpull_hooks.py:151-155 | After the union loop, a pattern is active exactly when it is an `ignores` line or belongs to a listed set. The exception is a pattern of the set `global` that contains `archive\.org`. |
| IgnoreConfig.ActivePatternsCacheGrowth | libgrabsite/wpull_hooks.py:151-155 | Cache entries for sets that are not listed do not change the active patterns. |
| JobStats.InitialJobData | libgrabsite/wpull_hooks.py:201-218 | `job_data` at start-up: the given identity fields, `suppress_ignore_reports` set, and every counter and delay at zero. |
| JobStats.Bump | libgrabsite/wpull_hooks.py:233-235 | Counting a response raises exactly one bucket by one and leaves every other field as it was. |
| JobStats.IntToString | libgrabsite/wpull_hooks.py:231 | `str(code)` for an integer: its decimal digits, with a leading `-` when negative. |
| JobStats.ClassOfCodeText | libgrabsite/wpull_hooks.py:232-235 | The bucket named by the text of a code: `r<d>xx` when the text has three characters and its first is one of 1..5, `runk` otherwise. |
| JobStats.Bucket | libgrabsite/wpull_hooks.py:229-235 | The bucket one result bumps: none when `response_code` is absent or zero, otherwise the bucket of `str(code)`. |
| JobStats.NatToStringThreeDigits | libgrabsite/wpull_hooks.py:231-232 | `str(n)` has three characters exactly for 100..999, and its first character is then the digit `n // 100`. |
| JobStats.BucketByRange | libgrabsite/wpull_hooks.py:229-235 | The bucket chosen from the text of a non-zero code is `r<d>xx` for 100..599 (d being its first digit) and `runk` for every other code, negative ones included. A zero or absent code counts nowhere. |
| JobStats.Tally | libgrabsite/wpull_hooks.py:228-238 | `job_data` after one result: its code's bucket bumped, then the body's `content_size` added when there is a body. |
| JobStats.TallyEffect | libgrabsite/wpull_hooks.py:228-238 | One result raises only its code's bucket, and none for a zero or absent code. It adds the body's `content_size` only when there is a body, and changes no other field. |
| JobStats.TallyNonZeroCode | libgrabsite/wpull_hooks.py:229-235 | A non-zero code raises exactly one bucket, chosen by the 100..599 range test, and leaves the others alone. |
| Icy.IsIcyFieldName | libgrabsite/wpull_hooks.py:308 | `ICY_FIELD_PATTERN.match(field)`: the name begins with `icy-`, `ice-` or `x-audiocast-`, in any ASCII letter case. |
| Icy.IsIcecastServer | libgrabsite/wpull_hooks.py:312 | The field is named exactly `Server` and its value begins with `icecast`, in any ASCII letter case. |
| Icy.FieldVerdict | libgrabsite/wpull_hooks.py:307-314 | What one field decides: `[icy field]` if its name passes the name test, else `[icy server]` if it is an Icecast `Server` field, else nothing. |
| Icy.ScanFields | libgrabsite/wpull_hooks.py:307-314 | The field loop only ever finishes with `[icy field]` or `[icy server]`. |
| Icy.IcyPattern | libgrabsite/wpull_hooks.py:301-314 | The pattern reported is one of the three ICY patterns. Version `ICY` gives `[icy version]` whatever the fields are. |
| Icy.ScanFieldsFirstMatch | libgrabsite/wpull_hooks.py:307-314 | The loop finds nothing exactly when no field decides; otherwise the first deciding field wins. |
| Icy.ServerIsNoIcyFieldName | libgrabsite/wpull_hooks.py:308-312 | A field named `Server` never passes the name test, so the order of the two tests does not matter for it. |
| Icy.UpperCaseIcyField | libgrabsite/wpull_hooks.py:307-310 | An upper-case `ICY-` field after an unrelated one finishes with `[icy field]`. |
| Icy.IcecastServerFirst | libgrabsite/wpull_hooks.py:307-314 | The first deciding field wins even when a later field would decide too; `IceCast` matches in any letter case. |
| Icy.LowerCaseServerIgnored | libgrabsite/wpull_hooks.py:312 | The name `Server` is compared exactly: `server: Icecast` is not a stream. |
| Icy.IcyInsideNameIgnored | libgrabsite/wpull_hooks.py:308 | The name test is anchored at the start: `X-Icy-Name` does not match. |
| WpullHooks.Lookup | libgrabsite/wpull_hooks.py:110-119 | `get_patterns_for_ignore_set` on a cache: an empty name fails the assertion, a cached name is answered from the cache, and any other name is fetched and cached when the fetch succeeds. |
| WpullHooks.LookupCaches | libgrabsite/wpull_hooks.py:109-119 | A lookup never changes or drops a cached entry. A success leaves its answer cached under the name. The only entry it can add is the name's own, after a successful fetch of an uncached, non-empty name. A failure leaves the cache as it was. |
| WpullHooks.LookupMemoised | libgrabsite/wpull_hooks.py:112-113 | After a successful lookup, looking the name up again returns the same patterns and changes nothing, whatever the remote answers by then. |
| WpullHooks.FetchAll | libgrabsite/wpull_hooks.py:151-152 | The fetch loop keeps every cached entry. When it gets through the list, every listed name is cached. |
| WpullHooks.FetchAllOutcome | libgrabsite/wpull_hooks.py:151-152 | The fetch loop gets through the list exactly when every name is non-empty and either cached or fetchable. |
| WpullHooks.FetchStep | libgrabsite/wpull_hooks.py:151-155 | One turn of the loop: a failed lookup decides the outcome of the whole loop. A successful lookup leaves the rest of the loop to run on the grown cache and adds the set's contribution. |
| WpullHooks.Rebuilt | libgrabsite/wpull_hooks.py:144-160 | `update_ignoracle`: parse both texts and run the fetch loop. On the first failure it raises with the patterns left as they were; otherwise the patterns become the active patterns. |
| WpullHooks.PollWatchers | libgrabsite/wpull_hooks.py:174 | The two `has_changed()` calls of `accept_url`: the `ignores` watcher is polled, and its stored time moved, only when `igsets` reports no change. |
| WpullHooks.Refresh | libgrabsite/wpull_hooks.py:174-175 | The first line of `accept_url`: a rebuild when the polled watchers report a change, and otherwise no change to cache or patterns. |
| WpullHooks.BothChangedRebuildsTwice | libgrabsite/wpull_hooks.py:174-175 | When both files changed, the first call rebuilds and leaves the `ignores` watcher's stored time stale, so a second call with the same, steady files rebuilds again. |
| WpullHooks.SteadyFilesSettle | libgrabsite/wpull_hooks.py:174-175 | With steady files, the third call never rebuilds and leaves the stored times as they are. The second call does not rebuild either when the first saw no `igsets` change. |
| WpullHooks.RebuiltPatterns | libgrabsite/wpull_hooks.py:144-160 | A successful rebuild does not depend on the previous patterns. After it, a pattern is active exactly when it is an `ignores` line or comes from a listed set, apart from `global`'s `archive\.org` patterns. |
| WpullHooks.BlankIgsetsFails | libgrabsite/wpull_hooks.py:144-152 | A blank `igsets` file makes every rebuild fail on the empty-name assertion, with cache and patterns unchanged. |
| WpullHooks.DoubleCommaFails | libgrabsite/wpull_hooks.py:144-152 | `a,,b` fails the rebuild on the empty name, once `a` is cached or fetchable. |
| WpullHooks.Admit | libgrabsite/wpull_hooks.py:179-190 | The answer of `accept_url` once the patterns are current: false for `data:` URLs and for matched URLs, the crawler's verdict otherwise. |
| WpullHooks.AdmitNarrows | libgrabsite/wpull_hooks.py:179-190 | Admission only narrows the crawler's verdict: `data:` URLs and matched URLs are refused, and every other URL gets the verdict unchanged. |
| WpullHooks.LogIgnore | libgrabsite/wpull_hooks.py:282-291 | `maybe_log_ignore` on `job_data` and the outbox: the suppress flag becomes the existence of `igoff`, and one `ignore` message is appended when `igoff` is absent and a client is connected. |
| WpullHooks.ReportedCode | libgrabsite/wpull_hooks.py:242-245 | The `response_code` a `download` message carries: 0 on error, otherwise the code entry, or 0 when it is absent. |
| WpullHooks.ReportedMessage | libgrabsite/wpull_hooks.py:242-245 | The `response_message` a `download` message carries: the error text on error, otherwise the message entry. |
| WpullHooks.ResultAdvances | libgrabsite/wpull_hooks.py:226-238 | What `handle_result` does to `job_data` keeps its identity fields and never lowers a counter. |
| WpullHooks.HookState.constructor | libgrabsite/wpull_hooks.py:201-218 | The state at module load has an empty cache, no patterns and no client. `job_data` starts with `suppress_ignore_reports` set and every counter at zero, and the two watchers hold the current mtimes. |
| WpullHooks.HookState.OnOpen | libgrabsite/wpull_hooks.py:21-27 | Opening the connection sets the client and sends `hello` with mode `grabber` and the crawl's URL. |
| WpullHooks.HookState.OnClose | libgrabsite/wpull_hooks.py:29-30 | Closing the connection clears the client. |
| WpullHooks.HookState.GetPatternsForIgnoreSet | libgrabsite/wpull_hooks.py:110-119 | The cache is read and written as `Lookup` says. The remote is consulted only for a non-empty name that is not cached. Each successful fetch is logged, and the log holds every cached name exactly once, so each name is fetched successfully at most once. |
| WpullHooks.HookState.GatherIgnoreSets | libgrabsite/wpull_hooks.py:151-155 | The union loop leaves the cache as the fetch loop says and, when no lookup fails, yields exactly the active patterns. |
| WpullHooks.HookState.UpdateIgnoracle | libgrabsite/wpull_hooks.py:144-160 | A rebuild leaves error, cache and patterns as `Rebuilt` says: on success the patterns are rebuilt from the two texts, and on failure they stay as they were. |
| WpullHooks.HookState.UpdateIgoffInJobData | libgrabsite/wpull_hooks.py:276-279 | `suppress_ignore_reports` becomes the existence of `igoff`, which is also returned; nothing else changes. |
| WpullHooks.HookState.MaybeLogIgnore | libgrabsite/wpull_hooks.py:282-291 | The suppress flag is refreshed. One `ignore` message with the refreshed `job_data`, the URL and the pattern is sent exactly when `igoff` is absent and a client is connected. |
| WpullHooks.HookState.RefreshIgnoracle | libgrabsite/wpull_hooks.py:174-175 | The watchers store the times `PollWatchers` gives, so the `ignores` watcher is polled only when `igsets` reports no change. Error, cache and patterns are as `Refresh` says: a change from either file rebuilds, and otherwise nothing changes. |
| WpullHooks.HookState.AcceptUrl | libgrabsite/wpull_hooks.py:173-190 | A failed rebuild is raised with `job_data` and the outbox untouched. Otherwise the answer is `Admit` on the current patterns. A matched URL is reported as `maybe_log_ignore` does, and a `data:` or unmatched URL reports nothing. |
| WpullHooks.HookState.QueuedUrl | libgrabsite/wpull_hooks.py:193-194 | `items_queued` goes up by one and nothing else changes. |
| WpullHooks.HookState.DequeuedUrl | libgrabsite/wpull_hooks.py:197-198 | `items_downloaded` goes up by one and nothing else changes. |
| WpullHooks.HookState.HandleResult | libgrabsite/wpull_hooks.py:220-259 | `job_data` becomes the tally of the result after the `igoff` refresh. With a client connected, one `download` message is sent, carrying code 0 and the error text on error. The answer is STOP exactly when `stop` exists. |
| WpullHooks.HookState.HandleResponse | libgrabsite/wpull_hooks.py:262-263 | A response is a result without an error. |
| WpullHooks.HookState.HandleError | libgrabsite/wpull_hooks.py:266-267 | An error counts in no bucket and adds no bytes. Its `download` message carries code 0 and the error text. |
| WpullHooks.HookState.HandlePreResponse | libgrabsite/wpull_hooks.py:298-318 | FINISH exactly when `IcyPattern` finds a pattern, and that pattern is reported as `maybe_log_ignore` does. Otherwise NORMAL, and nothing changes. |

## Left out

- The websocket protocol: the client factory, autobahn calls and `json.dumps` serialisation (`libgrabsite/wpull_hooks.py:20-51`). A connected client is a flag, and a send is an append to the outbox.
- `on_close` schedules a fresh `connect_to_server`. Scheduling on the event loop is not modelled.
- The asyncio event loop, `create_connection`, `asyncio.sleep` and the host and port taken from the environment (`libgrabsite/wpull_hooks.py:76-95`). `ConnectToServer` takes each attempt's outcome as input and returns the delays it would sleep.
- The signal handlers (`libgrabsite/wpull_hooks.py:97-106`) are not modelled. The graceful handler creates the `stop` file (`libgrabsite/wpull_hooks.py:99-100`), and that file reaches the model as `Files.stop`, which `HandleResult` reads.
- File system and network access: `os.stat`, `os.path.exists`, `open().read()` and `urlopen` become values and the `remote` function. `job_data`'s `ident`, `url`, `started_at` and `concurrency` are constructor parameters. Reading `concurrency` with `int()` can fail, and that failure is not modelled. The model assumes `igsets` and `ignores` exist. A missing one makes `os.stat` in `has_changed` or `open` in `update_ignoracle` raise out of `accept_url` (`libgrabsite/wpull_hooks.py:124`, `:133-134`, `:145`, `:148`), and that error path is not modelled.
- The module-load call `update_ignoracle()` (`libgrabsite/wpull_hooks.py:162`) is not made by the constructor. The first caller runs `UpdateIgnoracle` after construction.
- `Ignoracle` and `parameterize_record_info` are not part of this model. Matching is an arbitrary function from the active patterns, the URL and the record to an optional pattern. `Matched` treats an empty pattern as no match, as Python's truth test does.
- `print_to_real`, the `pprint` listing of the active patterns and `exit_status` (`libgrabsite/wpull_hooks.py:352-357`) produce output only.
- The stdout and stderr patching (`libgrabsite/wpull_hooks.py:321-349`) is not modelled. While a client is connected, these writes are forwarded to the monitor as `stdout` and `stderr` messages carrying `job_data` (`libgrabsite/wpull_hooks.py:325-330`, `:339-344`). The outbox therefore holds only `hello`, `download` and `ignore` messages.
- The registration of the hooks with wpull (`libgrabsite/wpull_hooks.py:362-369`): every registered hook except `exit_status` is a method of `HookState`.
- Backoff.Decayer.constructor: requires a non-zero multiplier. The source would raise `ZeroDivisionError` in `reset`, and that error path is not modelled.
- Backoff: arithmetic is exact over `real`; IEEE float rounding (for instance of `0.25 / 1.5 * 1.5`) is not modelled.
- Icy.IsIcyFieldName, Icy.IsIcecastServer, Icy.IcyPattern: letter case is folded for ASCII only. Python's `re.IGNORECASE` on `str` also folds some non-ASCII letters (`İ`, `ı`, `ſ`, the Kelvin sign). So a few non-ASCII field names that Python matches, such as `ıcy-name`, are not matched here, and neither are a few `Server` values, such as `ICECAſT`.
- JobStats.Tally: `content_size` is taken as a natural number, and a body without `content_size` is not distinguished from an absent body (the source would raise `KeyError`).
- WpullHooks.HookState.GetPatternsForIgnoreSet: a reply whose JSON lacks `patterns`, or cannot be decoded, is the same `FetchFailed` as a failed download.
- Decoding the `igsets` and `ignores` files and translating their newlines happen inside `read()` and are not modelled. `Files` carries the decoded, translated text, and a `UnicodeDecodeError` on a file that does not decode is not modelled.
