/** The data-extraction part of `FetchData.fetch`: what one GET request turns into,
    given the status code and the decoded JSON body of the response. */
module Fetcher {
  import opened Wrappers
  import opened Kotlin

  /** `HttpURLConnection.HTTP_OK`. */
  const HttpOk: int := 200

  /** One element of the response's `data` array, as `getJSONObject(i).getInt("value")`
      sees it: `Some(v)` when that call returns the int `v` (after the JSON library's own
      conversions); `None` when `getJSONObject(i)` or `getInt("value")` would throw. */
  datatype Point = Point(value: Option<int32>)

  /** A response: its status code and, when the body is a JSON object holding a `data`
      array, the elements of that array (`None` when `getJSONArray("data")` would throw). */
  datatype Response = Response(status: int, data: Option<seq<Point>>)

  /** Why a fetch throws: the body has no `data` array, or the point at `index` (the
      first such point) has no int `value`. */
  datatype FetchError = NoDataArray | BadPoint(index: nat)

  /** Every point carries an int `value`. */
  predicate AllValued(points: seq<Point>) {
    forall i :: 0 <= i < |points| ==> points[i].value.Some?
  }

  /** A response `fetch` turns into a list without throwing: any non-200 status, or a 200
      whose `data` array holds only points with an int `value`. */
  predicate WellFormed(response: Response) {
    response.status != HttpOk || (response.data.Some? && AllValued(response.data.value))
  }

  /** The values of `points` in array order, or the index of the first point without one. */
  function Values(points: seq<Point>): (r: Result<Series, nat>)
    ensures r.Success? <==> AllValued(points)
    ensures r.Success? ==> |r.value| == |points|
    ensures r.Success? ==> forall i :: 0 <= i < |points| ==> points[i].value == Some(r.value[i])
    ensures r.Failure? ==> r.error < |points| && points[r.error].value.None?
    ensures r.Failure? ==> forall i :: 0 <= i < r.error ==> points[i].value.Some?
  {
    if |points| == 0 then Success([])
    else
      match points[0].value
      case None => Failure(0)
      case Some(v) =>
        match Values(points[1..])
        case Success(rest) => Success([v] + rest)
        case Failure(i) => Failure(i + 1)
  }

  /** Reference definition of one fetch: a non-200 status degrades to the empty list, a
      200 yields the values of the `data` array, and a malformed 200 body fails the call. */
  function Fetch(response: Response): (r: Result<Series, FetchError>)
    ensures r.Success? <==> WellFormed(response)
    ensures response.status != HttpOk ==> r == Success([])
    ensures r == Failure(NoDataArray) <==> response.status == HttpOk && response.data.None?
    ensures response.status == HttpOk && r.Success? ==>
              |r.value| == |response.data.value|
              && forall i :: 0 <= i < |r.value| ==> response.data.value[i].value == Some(r.value[i])
    ensures r.Failure? && r.error.BadPoint? ==>
              response.data.Some?
              && r.error.index < |response.data.value|
              && response.data.value[r.error.index].value.None?
              && forall i :: 0 <= i < r.error.index ==> response.data.value[i].value.Some?
  {
    if response.status != HttpOk then Success([])
    else
      match response.data
      case None => Failure(NoDataArray)
      case Some(points) =>
        match Values(points)
        case Success(vs) => Success(vs)
        case Failure(i) => Failure(BadPoint(i))
  }

  /** `FetchData.fetch` as written: a loop over the `data` array that appends each point's
      `value` and throws at the first point without one. */
  method FetchData(response: Response) returns (r: Result<Series, FetchError>)
    ensures r == Fetch(response)
  {
    if response.status != HttpOk {
      return Success([]);
    }
    if response.data.None? {
      return Failure(NoDataArray);
    }
    var points := response.data.value;
    var values: Series := [];
    for i := 0 to |points|
      invariant |values| == i
      invariant forall j :: 0 <= j < i ==> points[j].value == Some(values[j])
    {
      match points[i].value {
        case None =>
          return Failure(BadPoint(i));
        case Some(v) =>
          values := values + [v];
      }
    }
    assert Values(points).Success?;
    assert Values(points).value == values;
    return Success(values);
  }
}
