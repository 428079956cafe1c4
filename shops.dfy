/**
 * The nearby-shops stage of stops_enrichment_shops.py: for every stop the
 * Overpass API is asked how many shops lie within 500 m, with the retry
 * loop of module Backoff, and the count is added to the stop's record.
 * The k-th HTTP answer is the input `respond(k)`.
 */
module Shops {
  import opened Wrappers
  import opened Json
  import opened PosixPath
  import opened Backoff

  /** The `total` tag of the count element: absent, an integer, or text `int()` rejects. */
  datatype TotalTag = NoTotal | Total(n: int) | NotANumber

  /** An element of the answer; `tags` is None when the element has no `tags` key. */
  datatype Element = Element(tags: Option<TotalTag>)

  /**
   * One HTTP answer: a transport or HTTP-status failure (`RequestException`,
   * which also covers a body that is not JSON), or a decoded JSON object with
   * its `elements` list (empty when the key is absent).
   */
  datatype Response = RequestFailed | InvalidJson | Body(elements: seq<Element>)

  /** What `get_shop_count` hands back: a count, or an exception that leaves it (KeyError, ValueError). */
  datatype ShopCount = Count(n: int) | Raised

  /**
   * What one answer means to the retry loop, as the `try` block reads it:
   * only transport and decoding failures are retried; a decoded answer gives
   * the `total` tag of its first element, 0 when there is no element or no
   * tag, and an exception when the element has no `tags` or the tag is not
   * an integer.
   */
  function Classify(resp: Response): (s: Step<ShopCount>)
    ensures s == Retry <==> !resp.Body?
    ensures resp.Body? && |resp.elements| == 0 ==> s == Done(Count(0))
    ensures resp.Body? && |resp.elements| > 0 ==>
              var tags := resp.elements[0].tags;
              && (s == Done(Raised) <==> tags.None? || tags == Some(NotANumber))
              && (tags == Some(NoTotal) ==> s == Done(Count(0)))
              && (tags.Some? && tags.value.Total? ==> s == Done(Count(tags.value.n)))
  {
    match resp
    case Body(elements) =>
      if |elements| > 0 then
        match elements[0].tags
        case None => Done(Raised)
        case Some(NoTotal) => Done(Count(0))
        case Some(Total(n)) => Done(Count(n))
        case Some(NotANumber) => Done(Raised)
      else Done(Count(0))
    case _ => Retry
  }

  function Steps(respond: nat -> Response): nat -> Step<ShopCount> {
    (k: nat) => Classify(respond(k))
  }

  /** The specification of `get_shop_count`: the backoff loop, giving up with 0. */
  function ShopCountSpec(respond: nat -> Response, maxRetries: nat, initialDelay: int): Trace<ShopCount> {
    Retrying(Steps(respond), maxRetries, initialDelay, Count(0))
  }

  /** `get_shop_count`: the count, the pauses made, and the number of requests sent. */
  method GetShopCount(respond: nat -> Response, maxRetries: nat, initialDelay: int)
    returns (count: ShopCount, sleeps: seq<int>, requests: nat)
    ensures Trace(count, sleeps, requests) == ShopCountSpec(respond, maxRetries, initialDelay)
  {
    var delay := initialDelay;
    sleeps := [];
    requests := 0;
    var attempt := 0;
    while attempt < maxRetries
      invariant attempt <= maxRetries && requests == attempt
      invariant var rest := From(Steps(respond), attempt, maxRetries, delay, Count(0));
                ShopCountSpec(respond, maxRetries, initialDelay) == Trace(rest.value, sleeps + rest.sleeps, requests + rest.requests)
      decreases maxRetries - attempt
    {
      var resp := respond(attempt);
      requests := requests + 1;
      var step := Classify(resp);
      assert Steps(respond)(attempt) == step;
      FromStep(Steps(respond), attempt, maxRetries, delay, Count(0));
      if step.Done? {
        return step.value, sleeps, requests;
      } else if attempt < maxRetries - 1 {
        assert sleeps + [delay] + From(Steps(respond), attempt + 1, maxRetries, delay * 2, Count(0)).sleeps
            == sleeps + ([delay] + From(Steps(respond), attempt + 1, maxRetries, delay * 2, Count(0)).sleeps);
        sleeps := sleeps + [delay];
        delay := delay * 2;
      } else {
        return Count(0), sleeps, requests;
      }
      attempt := attempt + 1;
    }
    count := Count(0);
  }

  /**
   * When every request fails the count is 0, never -1 or None, after
   * `maxRetries` requests with doubling pauses between them.
   */
  lemma ExhaustedIsZero(respond: nat -> Response, maxRetries: nat, initialDelay: int)
    requires maxRetries >= 1
    requires forall j :: 0 <= j < maxRetries ==> !respond(j).Body?
    ensures ShopCountSpec(respond, maxRetries, initialDelay) == Trace(Count(0), Delays(initialDelay, maxRetries - 1), maxRetries)
  {
    forall j | 0 <= j < maxRetries ensures Steps(respond)(j).Retry? {
      assert Steps(respond)(j) == Classify(respond(j));
    }
    AllRetry(Steps(respond), 0, maxRetries, initialDelay, Count(0));
  }

  /**
   * The first decoded answer decides: after `k` failed requests the count is
   * what that answer holds, after `k` doubling pauses.
   */
  lemma FirstBodyDecides(respond: nat -> Response, k: nat, maxRetries: nat, initialDelay: int)
    requires k < maxRetries
    requires forall j :: 0 <= j < k ==> !respond(j).Body?
    requires respond(k).Body?
    ensures ShopCountSpec(respond, maxRetries, initialDelay) == Trace(Classify(respond(k)).value, Delays(initialDelay, k), k + 1)
  {
    forall j | 0 <= j < k ensures Steps(respond)(j).Retry? {
      assert Steps(respond)(j) == Classify(respond(j));
    }
    assert Steps(respond)(k) == Classify(respond(k));
    FirstDecisive(Steps(respond), 0, k, maxRetries, initialDelay, Count(0));
  }

  /** `get_shop_count` raises only because a decoded answer's first element lacks `tags` or has a non-integer `total`. */
  lemma RaisedOnlyFromBody(respond: nat -> Response, maxRetries: nat, initialDelay: int)
    requires ShopCountSpec(respond, maxRetries, initialDelay).value == Raised
    ensures var r := ShopCountSpec(respond, maxRetries, initialDelay);
            && r.requests >= 1
            && var last := respond(r.requests - 1);
            && last.Body? && last.elements != []
            && (last.elements[0].tags == None || last.elements[0].tags == Some(NotANumber))
  {
    var r := ShopCountSpec(respond, maxRetries, initialDelay);
    FromAnswers(Steps(respond), 0, maxRetries, initialDelay, Count(0));
    assert Steps(respond)(r.requests - 1) == Classify(respond(r.requests - 1));
  }

  // ---------------------------------------------------------------------------
  // The stage
  // ---------------------------------------------------------------------------

  /** How the stage ends: input unreadable, an exception from some stop, or a file written. */
  datatype Outcome = NoInput | Aborted | Written(path: string, data: map<string, Record>)

  /** A stop whose record lacks a coordinate, or whose count raised, aborts the whole stage. */
  predicate StopFails(rec: Record, countAt: (Value, Value) -> ShopCount) {
    "stop_lat" !in rec || "stop_lon" !in rec || countAt(rec["stop_lat"], rec["stop_lon"]).Raised?
  }

  /**
   * What the loop body makes of one stop: None when an exception leaves it (a
   * missing coordinate, or a count that raised), otherwise the record with its
   * `shops_nearby_count`.
   */
  function EnrichStop(rec: Record, countAt: (Value, Value) -> ShopCount): Option<Record> {
    if "stop_lat" !in rec || "stop_lon" !in rec then None
    else
      match countAt(rec["stop_lat"], rec["stop_lon"])
      case Raised => None
      case Count(n) => Some(rec["shops_nearby_count" := Int(n)])
  }

  /** The loop body as a function value. */
  function ShopEnricher(countAt: (Value, Value) -> ShopCount): Record -> Option<Record> {
    rec => EnrichStop(rec, countAt)
  }

  /** Every record transformed by `f`, or None when `f` fails on some record. */
  function AllOrNothing(data: map<string, Record>, f: Record -> Option<Record>): Option<map<string, Record>> {
    if exists id | id in data :: f(data[id]).None? then None
    else Some(map id | id in data :: f(data[id]).value)
  }

  /**
   * The specification of `nearby_shops_enrichment`. The count of a stop is
   * `countAt(stop_lat, stop_lon)`, the result of `get_shop_count` for its
   * coordinates.
   */
  function NearbyShops(input: Option<map<string, Record>>, countAt: (Value, Value) -> ShopCount,
                       inputFile: string, outputName: string): Outcome {
    if input.None? then NoInput
    else
      match AllOrNothing(input.value, ShopEnricher(countAt))
      case None => Aborted
      case Some(data) => Written(OutputBeside(inputFile, outputName), data)
  }

  /** `nearby_shops_enrichment`: each stop is processed in turn; an exception ends the stage. */
  method NearbyShopsEnrichment(input: Option<map<string, Record>>, countAt: (Value, Value) -> ShopCount,
                               inputFile: string, outputName: string)
    returns (out: Outcome)
    ensures out == NearbyShops(input, countAt, inputFile, outputName)
  {
    if input.None? {
      return NoInput;
    }
    ghost var f := ShopEnricher(countAt);
    var stops := input.value;
    var enriched: map<string, Record> := map[];
    var todo := stops.Keys;
    while todo != {}
      invariant todo <= stops.Keys
      invariant enriched.Keys == stops.Keys - todo
      invariant forall id :: id in enriched ==> f(stops[id]) == Some(enriched[id])
      decreases |todo|
    {
      var id :| id in todo;
      var next := ProcessStop(stops[id], countAt);
      assert f(stops[id]) == next;
      if next.None? {
        AbortedAt(stops, id, f);
        assert AllOrNothing(input.value, ShopEnricher(countAt)) == None;
        return Aborted;
      }
      enriched := enriched[id := next.value];
      todo := todo - {id};
    }
    AllEnriched(stops, enriched, f);
    assert AllOrNothing(input.value, ShopEnricher(countAt)) == Some(enriched);
    out := Written(OutputBeside(inputFile, outputName), enriched);
  }

  /** Once every record is transformed, the result is the transformed map. */
  lemma AllEnriched(stops: map<string, Record>, enriched: map<string, Record>, f: Record -> Option<Record>)
    requires enriched.Keys == stops.Keys
    requires forall id :: id in enriched ==> f(stops[id]) == Some(enriched[id])
    ensures AllOrNothing(stops, f) == Some(enriched)
  {
    assert forall id | id in stops :: f(stops[id]) == Some(enriched[id]);
    assert !exists id | id in stops :: f(stops[id]).None?;
    assert (map id | id in stops :: f(stops[id]).value) == enriched;
  }

  /** A record on which `f` fails makes the whole transformation fail. */
  lemma AbortedAt(stops: map<string, Record>, id: string, f: Record -> Option<Record>)
    requires id in stops && f(stops[id]).None?
    ensures AllOrNothing(stops, f) == None
  {
  }

  /** The body of the loop over the stops. */
  method ProcessStop(info: Record, countAt: (Value, Value) -> ShopCount) returns (next: Option<Record>)
    ensures next == EnrichStop(info, countAt)
  {
    if "stop_lat" !in info || "stop_lon" !in info {
      return None;
    }
    var shopCount := countAt(info["stop_lat"], info["stop_lon"]);
    if shopCount.Raised? {
      return None;
    }
    next := Some(info["shops_nearby_count" := Int(shopCount.n)]);
  }

  /** One stop fails exactly when it lacks a coordinate or its count raised; otherwise it gains the count. */
  lemma EnrichStopFacts(rec: Record, countAt: (Value, Value) -> ShopCount)
    ensures EnrichStop(rec, countAt).None? <==> StopFails(rec, countAt)
    ensures EnrichStop(rec, countAt).Some? ==>
              var out := EnrichStop(rec, countAt).value;
              && out.Keys == rec.Keys + {"shops_nearby_count"}
              && (forall f :: f in rec && f != "shops_nearby_count" ==> out[f] == rec[f])
              && out["shops_nearby_count"] == Int(countAt(rec["stop_lat"], rec["stop_lon"]).n)
  {
  }

  /**
   * A written file holds exactly the input stops, each with every field it
   * had and a `shops_nearby_count` equal to the count for its coordinates.
   */
  lemma WrittenStops(input: Option<map<string, Record>>, countAt: (Value, Value) -> ShopCount,
                     inputFile: string, outputName: string, id: string)
    requires NearbyShops(input, countAt, inputFile, outputName).Written?
    ensures var data := NearbyShops(input, countAt, inputFile, outputName).data;
            && input.Some? && data.Keys == input.value.Keys
            && (id in data ==>
                  && data[id].Keys == input.value[id].Keys + {"shops_nearby_count"}
                  && (forall f :: f in input.value[id] && f != "shops_nearby_count" ==> data[id][f] == input.value[id][f])
                  && countAt(input.value[id]["stop_lat"], input.value[id]["stop_lon"]).Count?
                  && data[id]["shops_nearby_count"] == Int(countAt(input.value[id]["stop_lat"], input.value[id]["stop_lon"]).n))
  {
    if id in input.value {
      EnrichStopFacts(input.value[id], countAt);
    }
  }

  /** The stage aborts exactly when some stop lacks a coordinate or its count raised. */
  lemma AbortedWhen(input: map<string, Record>, countAt: (Value, Value) -> ShopCount, inputFile: string, outputName: string)
    ensures NearbyShops(Some(input), countAt, inputFile, outputName) == Aborted
        <==> exists id :: id in input && StopFails(input[id], countAt)
  {
    forall id | id in input {
      EnrichStopFacts(input[id], countAt);
    }
  }
}
