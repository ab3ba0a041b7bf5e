# Location discovery of the Street View image service

This project models `LocationService`, the part of the ImageFetchAPI service
that finds a random place with street-level panorama coverage. It has three parts:

- **Weighted sampling.** A fixed table of seven bounding boxes carries
  integer weights. Each box is repeated `weight` times into a flat list,
  one entry of that list is chosen, and a point is drawn uniformly inside
  the chosen box and rounded to six decimals.
- **Provider wrappers.** The metadata check turns a provider response into
  a pano id or `None`. The image fetch turns a response into image data or
  `None`. Neither lets a failure escape.
- **Discovery loop.** It makes at most forty attempts of sample, check,
  then fetch. It returns on the first attempt where both calls succeed,
  and raises after forty failures.

Coordinates are integers in micro-degrees (millionths of a degree), which
is what the source's `round(x, 6)` produces. Randomness and HTTP are inputs:
- `random.random()` is the integer `k` of `k / 2^53`.
- `random.choice` is an index into the weighted list.
- Each provider call is described by the response it received, or by the
  fact that it raised.
- The discovery loop reads its sampler, checker and fetcher from
  `Oracles`, one answer per attempt number. `Discovery.SourceOracles` wires
  the real sampler in.

Modules:
- `Wrappers`: `Option` and `Result`.
- `Regions`: the table and its expansion.
- `Sampler`: `generate_random_location`.
- `Provider`: `check_panorama_availability` and `get_panorama_image`.
- `Discovery`: `find_valid_location`, with a recursive reference definition `Search`.

In these details the model follows the code exactly:
- A weight is any integer. `[region] * weight` yields an empty list for a
  weight of zero or below, so such a row is never chosen. A row without a
  `weight` key counts once (`pop("weight", 1)`).
- The loop fetches the image only when `if pano_id:` holds. `None` and
  `""` are falsy, so a response with status "OK" whose `pano_id` is empty
  or absent is a failed attempt.
- The loop accepts the image when `if image_data:` holds. The fetcher
  returns a `BytesIO` object, and that is always truthy. So a response with
  an `image/` content type succeeds even when its body is empty.
- `raise_for_status()` raises only for status codes 400 to 599. Any other
  code goes on to the body.

## Model

| member | source | states |
|---|---|---|
| `Regions.Expand` | location_service.py:38-41 | the weighted list has as many entries as the weights add up to (non-positive weights count as zero, a missing weight as one); its layout and contents are stated by `ExpandBlock`, `ExpandMembership` and `ExpandCount` |
| `Regions.ExpandBlock` | location_service.py:39-41 | table order: the weighted list is the rows before `i`, then exactly max(weight, 0) copies of row `i`'s bounds, then the rows after it |
| `Regions.ExpandMembership` | location_service.py:38-44 | a box appears in the weighted list exactly when some row with a positive weight carries it |
| `Regions.ExpandCount` | location_service.py:38-41 | every box occurs in the weighted list exactly as often as the weights of its rows add up to |
| `Regions.RowOccursWeightTimes` | location_service.py:40-41 | when no two rows share a box, each row occurs exactly max(weight, 0) times, and exactly once when it has no `weight` key |
| `Regions.TableFacts` | location_service.py:20-41 | the source's table expands to 12 entries, every box has min ≤ max, and each region occurs exactly its weight of times (3, 3, 2, 1, 1, 1, 1) |
| `Sampler.Uniform` | location_service.py:47-50 | the result is the micro-degree nearest to lo + (hi - lo) * u / 2^53 (halves rounding up); it stays between the two ends, and the draws 0 and 1 give exactly the low and high end |
| `Sampler.ChooseRegion` | location_service.py:44 | the box `random.choice` selects is the box of a table row with a positive weight |
| `Sampler.PointIn` | location_service.py:47-50 | the drawn point lies in the box, bounds included |
| `Sampler.SampleFrom` | location_service.py:38-50 | for any table, the generated point lies in the box of some row with a positive weight |
| `Sampler.GenerateRandomLocation` | location_service.py:14-50 | every location generated from the source's table lies inside one of its seven regions, bounds included |
| `Provider.CheckPanorama` | location_service.py:63-77 | the pano id is returned exactly when the request did not raise, the status code is not an error, the body parsed as a JSON object, its status is "OK" and it carries a `pano_id`; every other case gives `None` |
| `Provider.CheckPanoramaCollapses` | location_service.py:63-77 | the check equals an independent three-way classification (found, not available, transient error) with both failure kinds collapsed to `None` |
| `Provider.FetchImage` | location_service.py:93-106 | the body is returned exactly when the request did not raise, the status code is not an error, and a content-type header starting with "image/" is present; a missing header, another type or a raise gives `None` |
| `Provider.FetchImageCollapses` | location_service.py:93-106 | the fetch equals the three-way classification of image responses, with failures collapsed to `None` |
| `Discovery.AttemptAt` | location_service.py:120-129 | an attempt finds something exactly when its pano id is truthy and the image fetch for that id returns data; what it finds is that attempt's coordinate, that data and that pano id |
| `Discovery.RunAttempt` | location_service.py:120-129 | one loop pass calls the fetcher exactly when the checker gave a truthy pano id, and finds what `AttemptAt` says |
| `Discovery.FetchSchedule` | location_service.py:123-126 | the fetcher is called at exactly those attempts, in increasing order, whose pano id is truthy |
| `Discovery.FindValidLocation` | location_service.py:109-134 | at most 40 coordinates are sampled; on success the last attempt is the first successful one and the result is its coordinate, data and pano id; on failure exactly 40 attempts were made, all failed, and the message is the source's; the fetcher ran at exactly the truthy-id attempts; the result agrees with `Search` |
| `Discovery.SearchFindsFirst` | location_service.py:119-134 | the reference search succeeds exactly when some attempt below 40 succeeds, and then returns the first such attempt's find |
| `Discovery.OnlySuccessAt` | location_service.py:114-134 | if attempt `k` (0-based) is the first that would succeed, the search succeeds with its find exactly when `k < 40`; a success first possible on the 41st attempt is never reached |
| `Discovery.SourceSearchInTable` | location_service.py:119-129 | with the source's own sampler, a returned location lies inside one of the seven regions |
| `Discovery.ThirdAttemptExample` | location_service.py:119-129 | if coverage exists only at (40.0, -74.0) and the sampler reaches it on the third call, the search stops at the third attempt with that spot, that image and "pano123" |

## Left out

- HTTP requests, timeouts, query parameters, logging and `BytesIO`
  wrapping. These are I/O, so the responses are inputs and the image is
  its byte sequence.
- The claim that a region is chosen with probability weight / total. It
  is statistical. The model proves the counting fact behind it:
  `Regions.ExpandCount` and `Regions.TableFacts`.
- Float arithmetic. The model rounds `lo + (hi - lo) * k / 2^53` to the
  nearest micro-degree, with halves rounded up. Python's `round(x, 6)`
  works on a binary float and rounds halves to even, and `uniform` can
  be off by float rounding error.
- `Sampler.SampleFrom`: requires the index to lie inside the weighted list.
  That is `random.choice`'s own guarantee. The `IndexError` it raises on an
  empty list is not modelled, because the source's table is never empty.
- `Provider.CheckPanorama`: a JSON `status` or `pano_id` that is not a
  string is not modelled. A non-string status never equals "OK", and the
  model gives its `status` the same behaviour. A numeric pano id is not
  represented.
- The in-place `region.pop("weight")` mutates dictionaries that are
  rebuilt on every call. The model keeps only the resulting bounds.
- The persistence adapter in firebase_service.py is not part of this
  model. It is Firestore writes, `uuid4` and base64 library calls.
- The HTTP endpoint layer in app.py is not part of this model. It holds
  Flask routing and JSON envelopes, and its only decision is an early 500
  error when the API key is invalid.
- The configuration in config.py is not part of this model. It covers
  environment loading, the network-based key validation, and key masking
  that only feeds logging.
