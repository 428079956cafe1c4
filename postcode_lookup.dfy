/**
 * Reverse geocoding a stop's coordinates to a postcode through the
 * Postcodes.io API: the retrying lookup of helper_files/stops_enrichment_postcode.py
 * and the single-request classifier of the two older stage files.
 * The k-th HTTP answer is the input `respond(k)`.
 */
module PostcodeLookup {
  import opened Wrappers
  import opened Text
  import opened Backoff

  /** One element of the API's `result` list; `postcode` is None when null or absent. */
  datatype Item = Item(postcode: Option<string>)

  /**
   * One HTTP answer: a transport or HTTP-status failure (`RequestException`,
   * which also covers a body that is not JSON), or a decoded JSON object with
   * its `status` field and its `result` list (empty when absent or null).
   */
  datatype Response = RequestFailed | InvalidJson | Body(status: Option<int>, result: seq<Item>)

  /** The query parameters of one request. */
  datatype Request = Request(lat: real, lon: real, radius: string, limit: Option<int>)

  /** What one answer means to the retrying lookup. */
  function Classify(resp: Response): (s: Step<Option<string>>)
    ensures s.Done? <==> resp.Body? && resp.status == Some(200)
    ensures s.Done? && resp.result != [] ==> s.value == resp.result[0].postcode
    ensures s.Done? && resp.result == [] ==> s.value == None
  {
    match resp
    case Body(status, result) =>
      if status == Some(200) && result != [] then Done(result[0].postcode)
      else if status == Some(200) then Done(None)
      else Retry
    case _ => Retry
  }

  function Steps(respond: nat -> Response): nat -> Step<Option<string>> {
    (k: nat) => Classify(respond(k))
  }

  /** The specification of the retrying lookup: the backoff loop over the classified answers. */
  function Lookup(respond: nat -> Response, maxRetries: nat, initialDelay: int): Trace<Option<string>> {
    Retrying(Steps(respond), maxRetries, initialDelay, None)
  }

  /**
   * `reverse_geocode_postcode` with retries: returns the postcode, the pauses
   * made and the requests sent (all with the same parameters).
   */
  method ReverseGeocodePostcode(lat: real, lon: real, respond: nat -> Response,
                                radius: int, maxRetries: nat, initialDelay: int)
    returns (postcode: Option<string>, sleeps: seq<int>, sent: seq<Request>)
    ensures Trace(postcode, sleeps, |sent|) == Lookup(respond, maxRetries, initialDelay)
    ensures forall k :: 0 <= k < |sent| ==> sent[k] == Request(lat, lon, IntToString(radius), Some(1))
  {
    var delay := initialDelay;
    sleeps := [];
    sent := [];
    var attempt := 0;
    while attempt < maxRetries
      invariant attempt <= maxRetries && |sent| == attempt
      invariant forall k :: 0 <= k < |sent| ==> sent[k] == Request(lat, lon, IntToString(radius), Some(1))
      invariant var rest := From(Steps(respond), attempt, maxRetries, delay, None);
                Lookup(respond, maxRetries, initialDelay) == Trace(rest.value, sleeps + rest.sleeps, |sent| + rest.requests)
      decreases maxRetries - attempt
    {
      var params := Request(lat, lon, IntToString(radius), Some(1));
      sent := sent + [params];
      var resp := respond(attempt);
      assert Steps(respond)(attempt) == Classify(resp);
      FromStep(Steps(respond), attempt, maxRetries, delay, None);
      if resp.Body? && resp.status == Some(200) && resp.result != [] {
        return resp.result[0].postcode, sleeps, sent;
      } else if resp.Body? && resp.status == Some(200) {
        return None, sleeps, sent;
      } else if attempt < maxRetries - 1 {
        assert sleeps + [delay] + From(Steps(respond), attempt + 1, maxRetries, delay * 2, None).sleeps
            == sleeps + ([delay] + From(Steps(respond), attempt + 1, maxRetries, delay * 2, None).sleeps);
        sleeps := sleeps + [delay];
        delay := delay * 2;
      } else {
        return None, sleeps, sent;
      }
      attempt := attempt + 1;
    }
    postcode := None;
  }

  /**
   * The retrying lookup sends at most `maxRetries` requests (none when it is
   * 0), pauses `initialDelay * 2^k` before retry k + 1, and pauses only
   * between requests.
   */
  lemma LookupBounds(respond: nat -> Response, maxRetries: nat, initialDelay: int)
    ensures var r := Lookup(respond, maxRetries, initialDelay);
            && r.requests <= maxRetries
            && (maxRetries == 0 ==> r == Trace(None, [], 0))
            && (maxRetries > 0 ==> r.requests >= 1 && |r.sleeps| == r.requests - 1)
            && (forall k :: 0 <= k < |r.sleeps| ==> r.sleeps[k] == initialDelay * Pow2(k))
  {
    FromCounts(Steps(respond), 0, maxRetries, initialDelay, None);
    FromSleeps(Steps(respond), 0, maxRetries, initialDelay, None);
    DelaysAt(initialDelay, |Lookup(respond, maxRetries, initialDelay).sleeps|);
  }

  /**
   * A postcode returned by the lookup is the first result of a status-200
   * answer to the last request sent, and every earlier answer was a failure
   * or an unexpected status.
   */
  lemma LookupFound(respond: nat -> Response, maxRetries: nat, initialDelay: int)
    requires Lookup(respond, maxRetries, initialDelay).value.Some?
    ensures var r := Lookup(respond, maxRetries, initialDelay);
            && r.requests >= 1
            && var last := respond(r.requests - 1);
            && last.Body? && last.status == Some(200) && last.result != []
            && last.result[0].postcode == r.value
            && forall j :: 0 <= j < r.requests - 1 ==> !(respond(j).Body? && respond(j).status == Some(200))
  {
    var r := Lookup(respond, maxRetries, initialDelay);
    FromAnswers(Steps(respond), 0, maxRetries, initialDelay, None);
    FromCounts(Steps(respond), 0, maxRetries, initialDelay, None);
    assert Steps(respond)(r.requests - 1) == Done(r.value);
    forall j | 0 <= j < r.requests - 1
      ensures !(respond(j).Body? && respond(j).status == Some(200))
    {
      assert Steps(respond)(j).Retry?;
    }
  }

  /**
   * An answer with status 200 ends the lookup at once, with no pause after
   * it: its first postcode when `result` is non-empty, None otherwise.
   */
  lemma LookupStopsAt200(respond: nat -> Response, k: nat, maxRetries: nat, initialDelay: int)
    requires k < maxRetries
    requires forall j :: 0 <= j < k ==> !(respond(j).Body? && respond(j).status == Some(200))
    requires respond(k).Body? && respond(k).status == Some(200)
    ensures Lookup(respond, maxRetries, initialDelay)
         == Trace(if respond(k).result != [] then respond(k).result[0].postcode else None, Delays(initialDelay, k), k + 1)
  {
    forall j | 0 <= j < k ensures Steps(respond)(j).Retry? {
      assert Steps(respond)(j) == Classify(respond(j));
    }
    assert Steps(respond)(k) == Classify(respond(k));
    FirstDecisive(Steps(respond), 0, k, maxRetries, initialDelay, None);
  }

  /**
   * Three failed requests with the default settings: pauses of 1 and 2
   * seconds, no pause after the last, and None.
   */
  lemma ThreeFailures(respond: nat -> Response)
    requires forall j :: 0 <= j < 3 ==> respond(j) == RequestFailed
    ensures Lookup(respond, 3, 1) == Trace(None, [1, 2], 3)
  {
    forall j | 0 <= j < 3 ensures Steps(respond)(j).Retry? {
      assert Steps(respond)(j) == Classify(respond(j));
    }
    AllRetry(Steps(respond), 0, 3, 1, None);
    assert Delays(1, 2) == [1, 2];
  }

  /** The single request of the older stage files: radius "200", no `limit`. */
  function SingleShotRequest(lat: real, lon: real): (req: Request)
    ensures req.radius == "200" && req.limit == None
  {
    Request(lat, lon, "200", None)
  }

  /**
   * `reverse_geocode_postcode` of the older stage files: the first postcode
   * of a status-200 answer with a non-empty result, None for everything else.
   */
  function SingleShot(resp: Response): (postcode: Option<string>)
    ensures postcode.Some? ==> resp.Body? && resp.status == Some(200) && resp.result != []
                               && postcode == resp.result[0].postcode
  {
    if resp.Body? && resp.status == Some(200) && resp.result != [] then resp.result[0].postcode else None
  }

  /** The single-request lookup is the retrying one with one attempt: one request and no pause. */
  lemma SingleShotIsOneAttempt(respond: nat -> Response, initialDelay: int)
    ensures Lookup(respond, 1, initialDelay) == Trace(SingleShot(respond(0)), [], 1)
  {
    assert Steps(respond)(0) == Classify(respond(0));
  }
}
