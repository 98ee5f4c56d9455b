/**
  The decision logic of the `/temperature` endpoint: turn the optional
  average of the fresh station readings into an HTTP status code and a JSON
  body, either an error (no fresh data) or the rounded average with its verdict.
*/
module Routes {
  import opened Wrappers
  import opened Services

  /** The JSON values the endpoint puts into its bodies. */
  datatype Json = JString(text: string) | JNumber(number: real)

  /** An HTTP response: status code and JSON object body. */
  datatype Response = Response(code: int, body: map<string, Json>)

  const NoDataError: string := "No temperature data available"
  const NoDataMessage: string :=
    "Unable to retrieve fresh temperature data from senseBoxes. Data may be unavailable or older than 1 hour."

  /**
    The response for the average the aggregation reported (`None` when no
    reading was fresh). `round2` stands for rounding to two decimals, which
    the model leaves uninterpreted.
  */
  function Temperature(avg: Option<real>, round2: real -> real): (resp: Response)
    ensures resp.code == 503 <==> avg.None?
    ensures resp.code == 200 <==> avg.Some?
    ensures avg.None? ==>
      && resp.body.Keys == {"error", "message"}
      && resp.body["error"] == JString(NoDataError)
      && resp.body["message"] == JString(NoDataMessage)
    ensures avg.Some? ==>
      && resp.body.Keys == {"average_temperature", "status"}
      && resp.body["average_temperature"] == JNumber(round2(avg.value))
      && resp.body["status"] == JString(TemperatureService.GetTemperatureStatus(avg.value).Label())
  {
    match avg
    case None =>
      Response(503, map["error" := JString(NoDataError), "message" := JString(NoDataMessage)])
    case Some(t) =>
      Response(200, map[
        "average_temperature" := JNumber(round2(t)),
        "status" := JString(TemperatureService.GetTemperatureStatus(t).Label())])
  }

  /**
    One request to the endpoint: ask the service for its station ids, hand
    exactly those to the aggregation (`aggregate`, outside this model), and
    answer from the average it reports.
  */
  method HandleTemperature(svc: TemperatureService, aggregate: seq<string> -> Option<real>, round2: real -> real)
    returns (resp: Response)
    ensures resp == Temperature(aggregate(svc.Ids()), round2)
  {
    var ids := svc.GetSenseboxIds();
    var avg := aggregate(ids[..]);
    resp := Temperature(avg, round2);
  }

  /**
    The verdict comes from the unrounded average: however the average is
    rounded for display, the reported status is the same.
  */
  lemma StatusIgnoresRounding(t: real, round2: real -> real, other: real -> real)
    ensures Temperature(Some(t), round2).body["status"] == Temperature(Some(t), other).body["status"]
    ensures Temperature(Some(t), round2).body["status"]
         == JString(TemperatureService.GetTemperatureStatus(t).Label())
  {
  }

  /**
    An average just above 36 that rounds to 36.0 is shown as 36.0 and yet
    reported "Too Hot", although 36.0 itself is "Good".
  */
  lemma DisplayedAverageCanDisagreeWithStatus(round2: real -> real)
    requires round2(36.004) == 36.0
    ensures Temperature(Some(36.004), round2)
         == Response(200, map["average_temperature" := JNumber(36.0), "status" := JString("Too Hot")])
    ensures TemperatureService.GetTemperatureStatus(36.0) == Good
  {
  }

  /**
    Responses for the values the endpoint tests use, given Python's rounding
    of them. The tests check the code and 22.46 for 22.456, 19.0 for 18.999,
    and 503 with `error` and `message` for no average; the status Good for
    22.456 is added here.
  */
  lemma ResponseExamples(round2: real -> real)
    requires round2(22.456) == 22.46 && round2(18.999) == 19.0
    ensures Temperature(Some(22.456), round2)
         == Response(200, map["average_temperature" := JNumber(22.46), "status" := JString("Good")])
    ensures Temperature(Some(18.999), round2).body["average_temperature"] == JNumber(19.0)
    ensures Temperature(None, round2).code == 503
    ensures "error" in Temperature(None, round2).body && "message" in Temperature(None, round2).body
  {
  }
}
