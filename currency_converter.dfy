/** The USD exchange-rate cache of `CurrencyConverter`: a table of rates and the
    time it was fetched, refreshed from a remote endpoint when older than one
    hour, and a conversion that multiplies a USD amount by the cached rate.

    The network fetch and the clock are parameters: `now` is the current time
    and `fetch` is what the endpoint answers if it is asked. */
module CurrencyConverter {
  import opened Ascii

  datatype Option<T> = None | Some(value: T)

  /** A point in time, in whole microseconds (the resolution of `datetime`). */
  type Time = int

  /** `_CACHE_EXPIRY`: one hour, in microseconds. */
  const CacheExpiry: int := 60 * 60 * 1_000_000

  /** Currency code to units of that currency per one USD. */
  type RateTable = map<string, real>

  /** The two exceptions the converter raises: `ConnectionError` when the
      fetch fails and `ValueError` naming an unsupported currency code. */
  datatype Error = ConnectionFailure | UnsupportedCurrency(code: string)

  datatype Result<T> = Success(value: T) | Failure(error: Error)

  /** The answer of the rate endpoint: a decoded body whose "rates" field may be
      absent, or a failure (a transport error or a non-success status). */
  datatype FetchOutcome = Fetched(ratesField: Option<RateTable>) | FetchFailed

  /** The table a successful fetch installs: the "rates" field, or an empty
      table when the body has none. */
  function RatesOrEmpty(ratesField: Option<RateTable>): (t: RateTable)
    ensures forall code :: code in t <==> ratesField.Some? && code in ratesField.value
    ensures ratesField.Some? ==> t == ratesField.value
  {
    match ratesField
    case Some(t) => t
    case None => map[]
  }

  /** `_cached_rates` and `_last_update_time`; both start absent. */
  datatype CacheState = CacheState(rates: Option<RateTable>, lastUpdate: Option<Time>)

  const Empty: CacheState := CacheState(None, None)

  /** A table is present only together with the time it was fetched. */
  predicate Consistent(s: CacheState) {
    s.rates.Some? ==> s.lastUpdate.Some?
  }

  /** The staleness test: no table, no timestamp, or strictly more than an hour
      since the last successful fetch. */
  predicate NeedsRefresh(s: CacheState, now: Time)
    ensures !NeedsRefresh(s, now) <==>
      s.rates.Some? && s.lastUpdate.Some? && now <= s.lastUpdate.value + CacheExpiry
  {
    s.rates.None? || s.lastUpdate.None? || now - s.lastUpdate.value > CacheExpiry
  }

  /** The cache after one operation, what the operation returned or raised,
      and whether it asked the endpoint. */
  datatype Step<T> = Step(state: CacheState, result: Result<T>, fetched: bool)

  /** `_refresh_rates_if_needed` as a state transition. */
  function RefreshStep(s: CacheState, now: Time, fetch: FetchOutcome): (r: Step<()>)
    ensures r.fetched == NeedsRefresh(s, now)
    ensures r.result.Success? ==> Consistent(r.state) && r.state.rates.Some? && !NeedsRefresh(r.state, now)
    ensures r.result.Failure? ==> r.state == s && r.result.error == ConnectionFailure
  {
    if !NeedsRefresh(s, now) then
      Step(s, Success(()), false)
    else
      match fetch
      case Fetched(ratesField) => Step(CacheState(Some(RatesOrEmpty(ratesField)), Some(now)), Success(()), true)
      case FetchFailed => Step(s, Failure(ConnectionFailure), true)
  }

  /** The lookup and multiplication of `convert`, on an already upper-cased
      code: a missing code raises `ValueError` naming it. */
  function Lookup(table: RateTable, amount: real, currencyCode: string): (r: Result<real>)
    ensures r.Success? <==> currencyCode in table
    ensures r.Success? ==> r.value == amount * table[currencyCode]
    ensures r.Failure? ==> r.error == UnsupportedCurrency(currencyCode)
  {
    if currencyCode in table then Success(amount * table[currencyCode])
    else Failure(UnsupportedCurrency(currencyCode))
  }

  /** `convert` as a state transition: refresh if needed, then look up. */
  function ConvertStep(s: CacheState, now: Time, fetch: FetchOutcome, amount: real, code: string): (r: Step<real>)
    ensures r.state == RefreshStep(s, now, fetch).state
    ensures r.fetched == NeedsRefresh(s, now)
    ensures r.result == Failure(ConnectionFailure) <==> NeedsRefresh(s, now) && fetch.FetchFailed?
    ensures !(NeedsRefresh(s, now) && fetch.FetchFailed?) ==>
      r.state.rates.Some? && r.result == Lookup(r.state.rates.value, amount, Upper(code))
    ensures r.result.Success? ==>
      r.state.rates.Some? && Upper(code) in r.state.rates.value && r.result.value == amount * r.state.rates.value[Upper(code)]
  {
    var refreshed := RefreshStep(s, now, fetch);
    match refreshed.result
    case Failure(e) => Step(refreshed.state, Failure(e), refreshed.fetched)
    case Success(_) => Step(refreshed.state, Lookup(refreshed.state.rates.value, amount, Upper(code)), refreshed.fetched)
  }

  // ---------------------------------------------------------------------------
  // Properties of refresh

  /** A fresh cache is left alone: no fetch, table and timestamp unchanged. */
  lemma FreshRefreshIsNoOp(s: CacheState, now: Time, fetch: FetchOutcome)
    requires !NeedsRefresh(s, now)
    ensures RefreshStep(s, now, fetch) == Step(s, Success(()), false)
  {
  }

  /** The expiry comparison is strict: a table fetched at `t` is still fresh
      exactly one hour later and stale one microsecond after that. */
  lemma ExpiryBoundary(table: RateTable, t: Time)
    ensures !NeedsRefresh(CacheState(Some(table), Some(t)), t + CacheExpiry)
    ensures NeedsRefresh(CacheState(Some(table), Some(t)), t + CacheExpiry + 1)
  {
  }

  /** A successful fetch replaces the table wholesale by the "rates" field (or
      an empty table) and stamps it with the current time: no entry of the old
      table survives unless the response carries it. */
  lemma SuccessfulRefreshReplaces(s: CacheState, now: Time, ratesField: Option<RateTable>)
    requires NeedsRefresh(s, now)
    ensures var r := RefreshStep(s, now, Fetched(ratesField));
      && r.result.Success? && r.fetched
      && r.state.lastUpdate == Some(now)
      && r.state.rates.Some?
      && (forall code :: code in r.state.rates.value <==> ratesField.Some? && code in ratesField.value)
      && (ratesField.Some? ==> r.state.rates.value == ratesField.value)
  {
  }

  /** A failed fetch raises `ConnectionError` and leaves table and timestamp
      as they were. */
  lemma FailedRefreshKeepsState(s: CacheState, now: Time)
    requires NeedsRefresh(s, now)
    ensures RefreshStep(s, now, FetchFailed) == Step(s, Failure(ConnectionFailure), true)
  {
  }

  /** Refresh keeps "a table only with a timestamp". */
  lemma RefreshKeepsConsistent(s: CacheState, now: Time, fetch: FetchOutcome)
    requires Consistent(s)
    ensures Consistent(RefreshStep(s, now, fetch).state)
  {
  }

  // ---------------------------------------------------------------------------
  // Properties of convert

  /** The code is upper-cased before lookup, so a code and its upper-case form
      give the same outcome from the same state. */
  lemma ConvertCaseInsensitive(s: CacheState, now: Time, fetch: FetchOutcome, amount: real, code: string)
    ensures ConvertStep(s, now, fetch, amount, code) == ConvertStep(s, now, fetch, amount, Upper(code))
  {
    UpperIdempotent(code);
  }

  /** A failed refresh stops the conversion: even a stale table that is still
      present is not used as a fallback. */
  lemma NoStaleFallback(table: RateTable, t: Time, now: Time, amount: real, code: string)
    requires now - t > CacheExpiry
    requires Upper(code) in table
    ensures var s := CacheState(Some(table), Some(t));
      ConvertStep(s, now, FetchFailed, amount, code) == Step(s, Failure(ConnectionFailure), true)
  {
  }

  /** If the very first fetch fails, `convert` raises `ConnectionError` and the
      cache stays empty. */
  lemma ColdStartFailure(now: Time, amount: real, code: string)
    ensures ConvertStep(Empty, now, FetchFailed, amount, code) == Step(Empty, Failure(ConnectionFailure), true)
  {
  }

  /** A code missing from a fresh table raises `ValueError` naming the
      upper-cased code and leaves the cache as it was; a present code gives
      amount times its rate. */
  lemma ConvertFromFreshTable(s: CacheState, now: Time, fetch: FetchOutcome, amount: real, code: string)
    requires !NeedsRefresh(s, now)
    ensures var r := ConvertStep(s, now, fetch, amount, code);
      && r.state == s && !r.fetched
      && (Upper(code) !in s.rates.value ==> r.result == Failure(UnsupportedCurrency(Upper(code))))
      && (Upper(code) in s.rates.value ==> r.result.Success? && r.result.value == amount * s.rates.value[Upper(code)])
  {
  }

  /** An empty or absent "rates" field makes every conversion fail with
      `ValueError` until the next refresh. */
  lemma EmptyRatesRejectEveryCode(s: CacheState, now: Time, ratesField: Option<RateTable>, amount: real, code: string)
    requires NeedsRefresh(s, now)
    requires ratesField == None || ratesField == Some(map[])
    ensures ConvertStep(s, now, Fetched(ratesField), amount, code).result == Failure(UnsupportedCurrency(Upper(code)))
  {
  }

  /** Convert keeps "a table only with a timestamp". */
  lemma ConvertKeepsConsistent(s: CacheState, now: Time, fetch: FetchOutcome, amount: real, code: string)
    requires Consistent(s)
    ensures Consistent(ConvertStep(s, now, fetch, amount, code).state)
  {
  }

  // ---------------------------------------------------------------------------
  // Sequences of conversions

  /** One call of `convert`: its time, the endpoint's answer should it be
      asked, and the arguments. */
  datatype Call = Call(now: Time, fetch: FetchOutcome, amount: real, code: string)

  /** The cache after a sequence of `convert` calls, and how many of them asked
      the endpoint. */
  function Run(s: CacheState, calls: seq<Call>): (CacheState, nat)
    decreases |calls|
  {
    if calls == [] then (s, 0)
    else
      var c := calls[0];
      var step := ConvertStep(s, c.now, c.fetch, c.amount, c.code);
      var rest := Run(step.state, calls[1..]);
      (rest.0, rest.1 + if step.fetched then 1 else 0)
  }

  /** Every call happens at most an hour after `t`. */
  predicate WithinWindow(calls: seq<Call>, t: Time) {
    forall i :: 0 <= i < |calls| ==> calls[i].now - t <= CacheExpiry
  }

  /** Within the hour after a successful fetch the endpoint is not asked again
      and the cache does not change, whatever the calls convert. */
  lemma {:induction false} FreshWindowNoFetch(table: RateTable, t: Time, calls: seq<Call>)
    requires WithinWindow(calls, t)
    ensures Run(CacheState(Some(table), Some(t)), calls) == (CacheState(Some(table), Some(t)), 0)
  {
    if calls != [] {
      assert WithinWindow(calls[1..], t) by {
        forall i | 0 <= i < |calls[1..]| ensures calls[1..][i].now - t <= CacheExpiry {
          assert calls[1..][i] == calls[i + 1];
        }
      }
      FreshWindowNoFetch(table, t, calls[1..]);
    }
  }

  /** The first call after the hour has passed fetches once; if that fetch
      succeeds, calls in the hour that follows fetch no more. */
  lemma ExpiredWindowFetchesOnce(table: RateTable, t: Time, first: Call, calls: seq<Call>)
    requires first.now - t > CacheExpiry
    requires first.fetch.Fetched?
    requires WithinWindow(calls, first.now)
    ensures Run(CacheState(Some(table), Some(t)), [first] + calls).1 == 1
  {
    var s := CacheState(Some(table), Some(t));
    var step := ConvertStep(s, first.now, first.fetch, first.amount, first.code);
    assert step.state == CacheState(Some(RatesOrEmpty(first.fetch.ratesField)), Some(first.now));
    assert ([first] + calls)[1..] == calls;
    FreshWindowNoFetch(RatesOrEmpty(first.fetch.ratesField), first.now, calls);
  }

  // ---------------------------------------------------------------------------
  // The converter object

  /** The cache as the object that owns it: the two fields the source assigns
      in place, and a count of the requests made to the endpoint. */
  class RateCache {
    var rates: Option<RateTable>
    var lastUpdate: Option<Time>
    ghost var fetches: nat

    function State(): CacheState
      reads this
    {
      CacheState(rates, lastUpdate)
    }

    ghost predicate Valid()
      reads this
    {
      Consistent(State())
    }

    /** Both fields start absent; nothing has been fetched. */
    constructor ()
      ensures Valid() && State() == Empty && fetches == 0
    {
      rates := None;
      lastUpdate := None;
      fetches := 0;
    }

    /** `_refresh_rates_if_needed`: fetch when stale; on success assign both
        fields, on failure raise and assign neither. */
    method RefreshRatesIfNeeded(now: Time, fetch: FetchOutcome) returns (r: Result<()>)
      requires Valid()
      modifies this
      ensures Valid()
      ensures State() == RefreshStep(old(State()), now, fetch).state
      ensures r == RefreshStep(old(State()), now, fetch).result
      ensures fetches == old(fetches) + if NeedsRefresh(old(State()), now) then 1 else 0
    {
      if rates.None? || lastUpdate.None? || now - lastUpdate.value > CacheExpiry {
        fetches := fetches + 1;
        match fetch
        case Fetched(ratesField) =>
          rates := Some(RatesOrEmpty(ratesField));
          lastUpdate := Some(now);
          r := Success(());
        case FetchFailed =>
          r := Failure(ConnectionFailure);
      } else {
        r := Success(());
      }
    }

    /** `convert`: refresh, stop on a refresh failure, then look the
        upper-cased code up in the table and multiply. */
    method Convert(now: Time, fetch: FetchOutcome, amount: real, code: string) returns (r: Result<real>)
      requires Valid()
      modifies this
      ensures Valid()
      ensures State() == ConvertStep(old(State()), now, fetch, amount, code).state
      ensures r == ConvertStep(old(State()), now, fetch, amount, code).result
      ensures fetches == old(fetches) + if NeedsRefresh(old(State()), now) then 1 else 0
    {
      var refreshed := RefreshRatesIfNeeded(now, fetch);
      if refreshed.Failure? {
        return Failure(refreshed.error);
      }
      var currencyCode := Upper(code);
      r := Lookup(rates.value, amount, currencyCode);
    }
  }
}
