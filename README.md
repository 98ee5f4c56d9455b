# Temperature decision layer of the hivebox service

This project models the part of the hivebox web service that decides what the
`/temperature` endpoint answers. The service measures ambient temperature from a
fixed set of senseBox stations.

- `Services` (file `services.dfy`) models `TemperatureService`. The service keeps
  its own copy of the configured station ids. The default is the three ids of
  `SENSEBOX_IDS`. It hands out a new copy whenever it is asked for them. Python
  lists can be changed and shared, so lists are `array<string>` here. Python's
  `list(...)` copy is `NewList`, which builds a fresh array. The static
  `GetTemperatureStatus` splits the real line into three verdicts:
  - below 10 is Too Cold;
  - 10 to 36, both ends included, is Good;
  - above 36 is Too Hot.

  `InBand` is a separate reference definition of the same three bands. The lemmas
  prove that the bands cover every temperature, never overlap, match the
  service's verdict exactly and are ordered (monotone).
- `Routes` (file `routes.dfy`) models the `/temperature` handler as the pure
  function `Temperature`. Its input is the optional average from the aggregation
  service. With no average it answers 503 with an `error`/`message` body. With an
  average it answers 200 with the rounded average and the verdict for the
  unrounded average. `HandleTemperature` covers one whole request. It reads the
  ids from the service and passes exactly those ids to the aggregation. Then it
  answers from the average the aggregation returns.
- `Wrappers` holds the `Option` type. It stands for Python's `None` and for
  optional arguments.

Temperatures are `real`, so the threshold comparisons are exact. Two things
outside this model are parameters:
- rounding to two decimals, `round2: real -> real`;
- the fresh-data averaging of `SenseBoxService`, `aggregate: seq<string> -> Option<real>`.

## Model

| member | source | states |
|---|---|---|
| `Services.NewList` | src/services/temperature_service.py:18-24 | `list(...)` gives a newly allocated list with the same items in the same order |
| `Services.TemperatureService.constructor` | src/services/temperature_service.py:17-20 | the stored ids are a fresh list equal, element by element and in order, to the given list, or to the three default ids when none is given |
| `Services.TemperatureService.GetSenseboxIds` | src/services/temperature_service.py:22-24 | returns a newly allocated list equal to the stored ids; changes no state, so repeated calls give equal lists |
| `Services.TemperatureService.GetTemperatureStatus` | src/services/temperature_service.py:26-41 | the verdict returned is one whose band holds t (below 10, 10 to 36 inclusive, above 36) |
| `Services.BandsCoverEveryTemperature` | src/services/temperature_service.py:36-41 | every temperature lies in the band of some verdict (the classification is total) |
| `Services.BandsAreDisjoint` | src/services/temperature_service.py:36-41 | no temperature lies in the bands of two different verdicts |
| `Services.StatusIsTheBand` | src/services/temperature_service.py:36-41 | a verdict's band holds t if and only if that verdict is the service's answer for t: Too Cold exactly when t < 10, Good exactly when 10 <= t <= 36, Too Hot exactly when t > 36 |
| `Services.StatusIsMonotone` | src/services/temperature_service.py:36-41 | for t1 <= t2 the verdict for t1 is no warmer than the verdict for t2 (Too Cold < Good < Too Hot) |
| `Services.LabelsAreDistinct` | src/services/temperature_service.py:34-41 | the three verdicts are reported as three different strings |
| `Services.StatusExamples` | tests/unit/test_temperature_endpoint.py:60-111 | the values the tests check: 5 is Too Cold; 10, 20 and 36 are Good; 37 and 40 are Too Hot; added here, just beyond each boundary: 9.999 is Too Cold and 36.001 is Too Hot |
| `Services.DefensiveCopies` | src/services/temperature_service.py:17-24 | overwriting the caller's input list or a returned list leaves the service's ids unchanged; two reads return different lists whose contents, as handed back, are both the original ids |
| `Routes.Temperature` | src/routes/temperature.py:29-41 | code 503 exactly when the average is absent, with exactly the keys `error` and `message` and their texts; code 200 exactly when it is present, with exactly `average_temperature` (the rounded average) and `status` (the verdict for the unrounded average) |
| `Routes.HandleTemperature` | src/routes/temperature.py:25-41 | the aggregation gets exactly the service's station ids, and the response is the one `Temperature` gives for its result |
| `Routes.StatusIgnoresRounding` | src/routes/temperature.py:38-41 | the reported status does not depend on the rounding; it is the verdict for the unrounded average |
| `Routes.DisplayedAverageCanDisagreeWithStatus` | src/routes/temperature.py:39-40 | 36.004 is shown as 36.0 but reported Too Hot, while 36.0 itself is Good |
| `Routes.ResponseExamples` | tests/unit/test_temperature_endpoint.py:32-57 | what the tests check: 22.456 gives 200 with 22.46; 18.999 is shown as 19.0; an absent average gives 503 with `error` and `message`; added here: the full 22.456 response, with status Good |

## Left out

- Flask plumbing is not modelled: the blueprint, routing, `jsonify`, content types and the test client. The response is a status code and a map from key to JSON value.
- `SenseBoxService` (src/services/sensebox_service.py) is not part of this model. That covers its network fetch, freshness filter and averaging. Its result is an arbitrary `Option<real>`. In `HandleTemperature` it is an arbitrary function of the station ids.
- Python's `round(x, 2)` is not modelled. It rounds binary floats half to even. Here it is the uninterpreted parameter `round2`. The rounding lemmas assume only the values Python gives for the inputs they name.
- Floats are modelled as reals, so NaN and the infinities are left out. In Python a NaN average fails both `< 10` and `<= 36` and is reported "Too Hot".
- The module-level service objects (src/routes/temperature.py:11-12) are only wiring. `HandleTemperature` takes the service as an argument.
- `SENSEBOX_IDS` is a mutable module-level list in Python. Here it is the constant sequence `DefaultSenseboxIds`, because neither `TemperatureService` nor the `/temperature` handler writes to it.
- Configuration and MinIO loading, the metrics endpoint and the integration fixtures are not modelled. They are environment and framework I/O with no decision logic.
