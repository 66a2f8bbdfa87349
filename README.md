# Currency converter rate cache

A Dafny model of `CurrencyConverter` from `currency_converter.py`. The class converts
a USD amount into another currency. It uses a table of USD-based exchange rates that
it fetches from a remote endpoint and caches for one hour.

The model has two parts.

- `Ascii` (`ascii.dfy`): ASCII upper-casing. The converter uses it to normalise a
  currency code, for example "eur" to "EUR". The module proves that upper-casing is
  idempotent.
- `CurrencyConverter` (`currency_converter.dfy`) has two layers:
  - The cache state is a `CacheState`: the table `_cached_rates` and the timestamp
    `_last_update_time`. Both are optional and both start absent.
  - `_refresh_rates_if_needed` and `convert` are pure transitions, `RefreshStep` and
    `ConvertStep`. Each returns the new state, the result or raised error, and
    whether the endpoint was asked.
  - The lemmas about these transitions cover:
    - the staleness test, which uses a strict "more than one hour";
    - the no-op on a fresh cache;
    - wholesale replacement on a successful fetch;
    - state preservation on a failed fetch;
    - the invariant "a table only with a timestamp";
    - case-insensitivity and the unsupported-currency error;
    - that a stale table is never used after a failed fetch;
    - over a sequence of `convert` calls (`Run`): at most one fetch per hour
      after a successful fetch.
  - `RateCache` is the object form. It has the two fields that the source assigns in
    place. Its methods `RefreshRatesIfNeeded` and `Convert` are proved to perform
    exactly those transitions. A ghost counter `fetches` records each request to the
    endpoint.

The clock and the network are parameters.

- `now` is the current time, in whole microseconds, which is the resolution of
  Python's `datetime`. The expiry `CacheExpiry` is one hour in those units.
- `fetch` is what the endpoint answers if it is asked. It is either
  `Fetched(ratesField)`, where the decoded body's "rates" field may be absent, or
  `FetchFailed` for a transport error or a non-success status.

The two exceptions become the `Error` values `ConnectionFailure` (for
`ConnectionError`) and `UnsupportedCurrency(code)` (for `ValueError`).

## Model

| member | source | states |
|---|---|---|
| `Ascii.UpperChar` | currency_converter.py:56 | the upper-cased character is never a lower-case letter; other characters are unchanged; a lower-case letter maps to its capital |
| `Ascii.Upper` | currency_converter.py:56 | upper-casing keeps the length, leaves no lower-case letter and maps each character by `UpperChar` |
| `Ascii.UpperFixesNoLower` | currency_converter.py:56 | a string without lower-case letters is its own upper-case form |
| `Ascii.UpperIdempotent` | currency_converter.py:56 | upper-casing twice equals upper-casing once |
| `CurrencyConverter.RatesOrEmpty` | currency_converter.py:43 | the installed table has exactly the codes of the "rates" field, none when the field is absent, and equals the field when present |
| `CurrencyConverter.NeedsRefresh` | currency_converter.py:30-34 | the cache is fresh exactly when both table and timestamp are present and `now` is at most one hour after the timestamp |
| `CurrencyConverter.RefreshStep` | currency_converter.py:29-49 | the endpoint is asked exactly when the cache is stale; on success, a table is present, the cache is consistent and fresh at `now`; on failure, `ConnectionError` is raised and the state is unchanged |
| `CurrencyConverter.Lookup` | currency_converter.py:57-66 | succeeds exactly when the normalised code is in the table, with amount times its rate; otherwise `ValueError` naming the code |
| `CurrencyConverter.ConvertStep` | currency_converter.py:52-66 | the state after `convert` is the state after the refresh; it fetches exactly when stale; it raises `ConnectionError` exactly when stale and the fetch fails; otherwise, whether or not a fetch happened, a table is present and the result is the lookup of the upper-cased code in it: success with amount times its rate exactly when the code is present, else `ValueError` naming the upper-cased code |
| `CurrencyConverter.FreshRefreshIsNoOp` | currency_converter.py:30-34 | on a fresh cache, refresh neither fetches nor changes table or timestamp |
| `CurrencyConverter.ExpiryBoundary` | currency_converter.py:30-34 | a table stamped `t` is fresh at exactly `t` plus one hour and stale one microsecond later (strict comparison) |
| `CurrencyConverter.SuccessfulRefreshReplaces` | currency_converter.py:42-44 | on a stale cache and a successful fetch: the timestamp becomes `now`, and the table becomes exactly the "rates" field, or empty if the field is absent, with no entry kept from the old table |
| `CurrencyConverter.FailedRefreshKeepsState` | currency_converter.py:38-49 | on a stale cache and a failed fetch, `ConnectionError` is raised, the endpoint was asked, and table and timestamp are unchanged |
| `CurrencyConverter.RefreshKeepsConsistent` | currency_converter.py:43-44 | refresh preserves "a table is present only with a timestamp" |
| `CurrencyConverter.ConvertCaseInsensitive` | currency_converter.py:56-57 | `convert(a, c)` and `convert(a, upper(c))` give the same state, result and fetch from the same state |
| `CurrencyConverter.NoStaleFallback` | currency_converter.py:54-57 | when the table is stale and the fetch fails, `convert` raises `ConnectionError` even though the stale table holds the code |
| `CurrencyConverter.ColdStartFailure` | currency_converter.py:38-54 | if the first fetch fails, `convert` raises `ConnectionError` and the cache stays empty |
| `CurrencyConverter.ConvertFromFreshTable` | currency_converter.py:56-66 | from a fresh cache, `convert` does not fetch or change state; an unknown code raises `ValueError` naming the upper-cased code; a known code gives amount times its rate |
| `CurrencyConverter.EmptyRatesRejectEveryCode` | currency_converter.py:43-61 | after a fetch whose "rates" field is absent or empty, every code raises `ValueError` |
| `CurrencyConverter.ConvertKeepsConsistent` | currency_converter.py:52-57 | `convert` preserves "a table is present only with a timestamp" |
| `CurrencyConverter.FreshWindowNoFetch` | currency_converter.py:30-34 | any sequence of `convert` calls within one hour of a successful fetch makes no fetch and leaves the cache unchanged |
| `CurrencyConverter.ExpiredWindowFetchesOnce` | currency_converter.py:30-44 | the first call after the hour fetches; if it succeeds, the calls in the following hour add no fetch, so there is exactly one in all |
| `CurrencyConverter.RateCache.constructor` | currency_converter.py:9-11 | table and timestamp start absent; no fetch has been made |
| `CurrencyConverter.RateCache.RefreshRatesIfNeeded` | currency_converter.py:29-49 | assigns the fields exactly as `RefreshStep` says, raises what it says, counts one fetch exactly when stale, and keeps the invariant |
| `CurrencyConverter.RateCache.Convert` | currency_converter.py:52-66 | changes the fields exactly as `ConvertStep` says, returns or raises what it says, counts one fetch exactly when stale, and keeps the invariant |

## Left out

- The HTTP GET, `raise_for_status` and JSON decoding (currency_converter.py:39-42) are foreign library calls and I/O. They become the `FetchOutcome` parameter.
- The model does not cover a decoded body whose "rates" field is JSON `null`, is not an object, or holds `null` or non-numeric rates. The model assumes an object of numeric rates.
- `datetime.now()` is read twice in the source, at line 33 for the staleness test and at line 44 for the new timestamp. The model uses one `now` for both, so it ignores the time that passes during the fetch.
- Logging and `_init_logging` (currency_converter.py:15-26) are side effects only. They do not affect any result.
- Floating point: rates and amounts are `real`. The result is exactly amount times rate, with no rounding and no NaN or infinity.
- `Ascii.Upper` upper-cases ASCII letters only. Python's `str.upper` also maps non-ASCII letters, and some of those change the length (for example "ß" becomes "SS").
- The source keeps the cache as class-level state shared by the whole process. The model gives it to a `RateCache` object. Concurrency around that shared state is not modelled, because the source is single-threaded and blocking.
