/** Bounded retry around a single HTTP GET (src/fetcher.ts). */
module Fetcher {
  import opened Types
  import opened Effects
  import Decimal

  /** The network as an oracle: `net(url, k)` is what the k-th request for
      `url` (k >= 1) returns — the response body, or the error axios throws. */
  type Network = (string, nat) -> Result<string>

  const DefaultRetries: int := 3
  const DefaultDelayMs: int := 1000

  /** The error thrown when the attempt loop never runs. */
  function GaveUp(url: string, retries: int): Error
  {
    Error("Failed to fetch " + url + " after " + Decimal.IntToString(retries) + " attempts")
  }

  /** The first attempt number in `from..retries` whose request succeeds. */
  function FirstSuccess(net: Network, url: string, from: nat, retries: int): (k: Option<nat>)
    ensures k.Some? ==> net(url, k.value).Ok?
    ensures k.None? && from <= retries ==> net(url, retries).Err?
    decreases retries - from
  {
    if from > retries then None
    else if net(url, from).Ok? then Some(from)
    else FirstSuccess(net, url, from + 1, retries)
  }

  /** FirstSuccess finds the first successful attempt of the range, and finds
      none exactly when every attempt of the range fails. */
  lemma {:induction false} FirstSuccessIsFirst(net: Network, url: string, from: nat, retries: int)
    ensures var k := FirstSuccess(net, url, from, retries);
      (k.Some? ==> from <= k.value <= retries && net(url, k.value).Ok? &&
                   forall j :: from <= j < k.value ==> net(url, j).Err?) &&
      (k.None? ==> forall j :: from <= j <= retries ==> net(url, j).Err?)
    decreases retries - from
  {
    if from <= retries && net(url, from).Err? {
      FirstSuccessIsFirst(net, url, from + 1, retries);
    }
  }

  /** The effects of `n` attempts: a request each, a pause between two. */
  function Attempts(url: string, delayMs: int, n: nat): seq<Effect>
  {
    if n == 0 then []
    else if n == 1 then [Fetch(url)]
    else Attempts(url, delayMs, n - 1) + [Sleep(delayMs), Fetch(url)]
  }

  /** What `fetchWithRetry(url, retries, delayMs)` yields and does: the body of
      the first successful attempt, else the last attempt's error, else (no
      attempt at all) the "Failed to fetch" error. */
  function Retry(net: Network, url: string, retries: int, delayMs: int): (Result<string>, seq<Effect>)
  {
    if retries < 1 then (Err(GaveUp(url, retries)), [])
    else match FirstSuccess(net, url, 1, retries)
      case Some(k) => (Ok(net(url, k).value), Attempts(url, delayMs, k))
      case None => (Err(net(url, retries).error), Attempts(url, delayMs, retries))
  }

  /** src/fetcher.ts:8-18. */
  method FetchWithRetry(net: Network, url: string, retries: int := DefaultRetries, delayMs: int := DefaultDelayMs)
    returns (r: Result<string>, trace: seq<Effect>)
    ensures (r, trace) == Retry(net, url, retries, delayMs)
  {
    trace := [];
    var attempt := 1;
    while attempt <= retries
      invariant 1 <= attempt
      invariant retries >= 1 ==> attempt <= retries
      invariant retries < 1 ==> attempt == 1
      invariant forall j :: 1 <= j < attempt ==> net(url, j).Err?
      invariant trace == if attempt == 1 then [] else Attempts(url, delayMs, attempt - 1) + [Sleep(delayMs)]
      decreases retries - attempt
    {
      trace := trace + [Fetch(url)];
      assert trace == Attempts(url, delayMs, attempt);
      var response := net(url, attempt);
      FirstSuccessIsFirst(net, url, 1, retries);
      if response.Ok? {
        r := Ok(response.value);
        return;
      }
      if attempt == retries {
        r := Err(response.error);
        return;
      }
      trace := trace + [Sleep(delayMs)];
      attempt := attempt + 1;
    }
    r := Err(GaveUp(url, retries));
  }

  /** Attempt traces alternate request and pause, starting and ending with a
      request. */
  lemma {:induction false} AttemptsShape(url: string, delayMs: int, n: nat)
    ensures |Attempts(url, delayMs, n)| == if n == 0 then 0 else 2 * n - 1
    ensures forall i :: 0 <= i < |Attempts(url, delayMs, n)| ==>
      Attempts(url, delayMs, n)[i] == if i % 2 == 0 then Fetch(url) else Sleep(delayMs)
  {
    if n > 1 {
      AttemptsShape(url, delayMs, n - 1);
    }
  }

  /** `n` attempts make `n` requests and `n - 1` pauses. */
  lemma {:induction false} AttemptsCounts(url: string, delayMs: int, n: nat)
    ensures FetchCount(Attempts(url, delayMs, n)) == n
    ensures n >= 1 ==> Occurrences(Attempts(url, delayMs, n), Sleep(delayMs)) == n - 1
  {
    if n == 1 {
      assert Attempts(url, delayMs, n)[..0] == [];
    } else if n > 1 {
      AttemptsCounts(url, delayMs, n - 1);
      var front := Attempts(url, delayMs, n - 1);
      FetchCountAppend(front, [Sleep(delayMs), Fetch(url)]);
      OccurrencesAppend(front, [Sleep(delayMs), Fetch(url)], Sleep(delayMs));
      assert [Sleep(delayMs), Fetch(url)][..1] == [Sleep(delayMs)];
      assert [Sleep(delayMs)][..0] == [];
      assert FetchCount([Sleep(delayMs)]) == 0;
      assert Occurrences([Sleep(delayMs)], Sleep(delayMs)) == 1;
      assert FetchCount([Sleep(delayMs), Fetch(url)]) == 1;
      assert Occurrences([Sleep(delayMs), Fetch(url)], Sleep(delayMs)) == 1;
    }
  }

  /** At most `retries` requests are made, and at least one when the budget
      allows any. */
  lemma AttemptBudget(net: Network, url: string, retries: int, delayMs: int)
    ensures var (_, trace) := Retry(net, url, retries, delayMs);
      (retries < 1 ==> FetchCount(trace) == 0) &&
      (retries >= 1 ==> 1 <= FetchCount(trace) <= retries)
  {
    if retries >= 1 {
      var k := FirstSuccess(net, url, 1, retries);
      FirstSuccessIsFirst(net, url, 1, retries);
      AttemptsCounts(url, delayMs, if k.Some? then k.value else retries);
    }
  }

  /** The first successful attempt `k` within the budget is the one whose
      body is returned: exactly `k` requests and `k - 1` pauses happen, so no
      later attempt is made. */
  lemma FirstSuccessReturned(net: Network, url: string, retries: int, delayMs: int, k: nat)
    requires 1 <= k <= retries && net(url, k).Ok?
    requires forall j :: 1 <= j < k ==> net(url, j).Err?
    ensures var (r, trace) := Retry(net, url, retries, delayMs);
      r == Ok(net(url, k).value) && FetchCount(trace) == k &&
      Occurrences(trace, Sleep(delayMs)) == k - 1
  {
    FirstSuccessIsFirst(net, url, 1, retries);
    AttemptsCounts(url, delayMs, k);
  }

  /** When every attempt of a positive budget fails, the error of the last
      attempt is rethrown unchanged, after `retries` requests and
      `retries - 1` pauses. */
  lemma LastErrorRethrown(net: Network, url: string, retries: int, delayMs: int)
    requires retries >= 1
    requires forall j :: 1 <= j <= retries ==> net(url, j).Err?
    ensures var (r, trace) := Retry(net, url, retries, delayMs);
      r == Err(net(url, retries).error) && FetchCount(trace) == retries &&
      Occurrences(trace, Sleep(delayMs)) == retries - 1
  {
    FirstSuccessIsFirst(net, url, 1, retries);
    AttemptsCounts(url, delayMs, retries);
  }

  /** With no budget no request is made and the "Failed to fetch … after
      {retries} attempts" error is thrown; otherwise that error never is. */
  lemma GaveUpOnlyWithoutBudget(net: Network, url: string, retries: int, delayMs: int)
    ensures var (r, trace) := Retry(net, url, retries, delayMs);
      (retries < 1 ==> r == Err(GaveUp(url, retries)) && trace == []) &&
      (retries >= 1 ==> trace != [] && (r.Err? ==> r.error == net(url, retries).error))
  {
    if retries >= 1 {
      var k := FirstSuccess(net, url, 1, retries);
      FirstSuccessIsFirst(net, url, 1, retries);
      AttemptsShape(url, delayMs, if k.Some? then k.value else retries);
    }
  }

  /** Every pause follows a failed request that was not the last attempt. */
  lemma SleepOnlyBetweenFailures(net: Network, url: string, retries: int, delayMs: int, i: nat)
    requires var (_, trace) := Retry(net, url, retries, delayMs); i < |trace| && trace[i].Sleep?
    ensures var (_, trace) := Retry(net, url, retries, delayMs);
      1 <= i && trace[i - 1] == Fetch(url) && trace[i] == Sleep(delayMs) &&
      (i + 1) / 2 < retries && net(url, (i + 1) / 2).Err?
  {
    var k := FirstSuccess(net, url, 1, retries);
    var n := if k.Some? then k.value else retries;
    FirstSuccessIsFirst(net, url, 1, retries);
    AttemptsShape(url, delayMs, n);
  }
}
