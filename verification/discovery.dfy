/**
 * `LocationService.find_valid_location`: up to forty attempts, each sampling
 * a fresh coordinate, asking the provider for a panorama there, and fetching
 * the image only when a non-empty pano id came back. Randomness and the
 * network are inputs, indexed by the attempt number (counted from 0).
 */
module Discovery {
  import opened Wrappers
  import opened Sampler
  import opened Provider

  const MaxAttempts: nat := 40
  const NoLocationMessage: string := "Could not find a valid location with panorama available"

  /**
   * The outside world, one answer per attempt: the location the sampler
   * returns, the metadata reply, the image reply.
   */
  datatype Oracles = Oracles(
    sample: nat -> Coordinate,
    metadata: (nat, Coordinate) -> MetadataReply,
    image: (nat, string) -> ImageReply)

  /** `(latitude, longitude, image_data, pano_id)` of a successful search. */
  datatype DiscoveryResult = DiscoveryResult(location: Coordinate, image: seq<byte>, panoId: string)

  /** Python truthiness of the checker's result: `None` and `""` are false. */
  predicate Truthy(pano: Option<string>) {
    pano.Some? && pano.value != ""
  }

  function SampleAt(o: Oracles, k: nat): Coordinate {
    o.sample(k)
  }

  function PanoAt(o: Oracles, k: nat): Option<string> {
    CheckPanorama(o.metadata(k, SampleAt(o, k)))
  }

  /** Whether attempt `k` calls the image fetcher at all. */
  predicate FetchesAt(o: Oracles, k: nat) {
    Truthy(PanoAt(o, k))
  }

  /** What attempt `k` finds, if anything. */
  function AttemptAt(o: Oracles, k: nat): (r: Option<DiscoveryResult>)
    ensures r.Some? <==> FetchesAt(o, k) && FetchImage(o.image(k, PanoAt(o, k).value)).Some?
    ensures r.Some? ==> r.value.location == SampleAt(o, k) && r.value.panoId == PanoAt(o, k).value
                        && r.value.image == FetchImage(o.image(k, PanoAt(o, k).value)).value
  {
    var pano := PanoAt(o, k);
    if !Truthy(pano) then None
    else match FetchImage(o.image(k, pano.value))
      case None => None
      case Some(data) => Some(DiscoveryResult(SampleAt(o, k), data, pano.value))
  }

  /** Attempt `k` is within the budget, succeeds, and no earlier attempt did. */
  predicate FirstSuccessAt(o: Oracles, k: nat) {
    k < MaxAttempts && AttemptAt(o, k).Some? && forall j :: 0 <= j < k ==> AttemptAt(o, j).None?
  }

  /** Reference definition of the search, by recursion on the attempt number. */
  function Search(o: Oracles, k: nat): Result<DiscoveryResult>
    decreases MaxAttempts - k
  {
    if k >= MaxAttempts then Failure(NoLocationMessage)
    else match AttemptAt(o, k)
      case Some(f) => Success(f)
      case None => Search(o, k + 1)
  }

  /**
   * One pass of the loop body: sample, check, and fetch only on a truthy
   * pano id. Reports whether the fetcher was called and what was found.
   */
  method RunAttempt(o: Oracles, k: nat) returns (fetched: bool, found: Option<DiscoveryResult>)
    ensures fetched <==> FetchesAt(o, k)
    ensures found == AttemptAt(o, k)
    ensures found.Some? ==> fetched
  {
    var location := o.sample(k);
    var pano := CheckPanorama(o.metadata(k, location));
    fetched := false;
    found := None;
    if Truthy(pano) {
      fetched := true;
      var data := FetchImage(o.image(k, pano.value));
      if data.Some? {
        found := Some(DiscoveryResult(location, data.value, pano.value));
      }
    }
  }

  /**
   * The attempts, among the first `n`, at which the image fetcher is
   * called: exactly those whose pano id is truthy, in increasing order.
   */
  function FetchSchedule(o: Oracles, n: nat): (s: seq<nat>)
    ensures forall i :: 0 <= i < |s| ==> s[i] < n && FetchesAt(o, s[i])
    ensures forall k :: 0 <= k < n && FetchesAt(o, k) ==> k in s
    ensures forall i, j :: 0 <= i < j < |s| ==> s[i] < s[j]
  {
    if n == 0 then []
    else FetchSchedule(o, n - 1) + (if FetchesAt(o, n - 1) then [n - 1] else [])
  }

  /**
   * `find_valid_location`. Besides its result it reports how many attempts
   * it made (coordinates sampled) and at which attempts it called the
   * image fetcher.
   */
  method FindValidLocation(o: Oracles) returns (r: Result<DiscoveryResult>, attempts: nat, fetches: seq<nat>)
    ensures attempts <= MaxAttempts
    ensures r.Success? ==> 1 <= attempts && FirstSuccessAt(o, attempts - 1)
                           && r.value == AttemptAt(o, attempts - 1).value
    ensures r.Failure? ==> attempts == MaxAttempts && r.error == NoLocationMessage
                           && forall j :: 0 <= j < MaxAttempts ==> AttemptAt(o, j).None?
    ensures fetches == FetchSchedule(o, attempts)
    ensures r == Search(o, 0)
  {
    attempts := 0;
    fetches := [];
    while attempts < MaxAttempts
      invariant attempts <= MaxAttempts
      invariant forall j :: 0 <= j < attempts ==> AttemptAt(o, j).None?
      invariant fetches == FetchSchedule(o, attempts)
    {
      var fetched, found := RunAttempt(o, attempts);
      if fetched {
        fetches := fetches + [attempts];
      }
      if found.Some? {
        OnlySuccessAt(o, attempts);
        r := Success(found.value);
        attempts := attempts + 1;
        return;
      }
      attempts := attempts + 1;
    }
    SearchFindsFirst(o, 0);
    r := Failure(NoLocationMessage);
  }

  /**
   * The reference search succeeds exactly when some attempt within the
   * budget succeeds, and then it yields the first such attempt's find.
   */
  lemma {:induction false} SearchFindsFirst(o: Oracles, k: nat)
    requires k <= MaxAttempts
    requires forall j :: 0 <= j < k ==> AttemptAt(o, j).None?
    ensures Search(o, k).Success? <==> exists j :: k <= j < MaxAttempts && AttemptAt(o, j).Some?
    ensures Search(o, k).Success? ==> exists j :: FirstSuccessAt(o, j) && Search(o, k).value == AttemptAt(o, j).value
    ensures Search(o, k).Failure? ==> Search(o, k).error == NoLocationMessage
    decreases MaxAttempts - k
  {
    if k < MaxAttempts {
      if AttemptAt(o, k).Some? {
        assert FirstSuccessAt(o, k);
      } else {
        SearchFindsFirst(o, k + 1);
      }
    }
  }

  /**
   * Attempt budget: when attempt `k` (0-based) is the first one that would
   * succeed, the search succeeds, with that attempt's find, exactly when
   * `k < 40`. Success on the 1st, 5th or 40th attempt is found; success
   * first possible on the 41st attempt is never reached.
   */
  lemma OnlySuccessAt(o: Oracles, k: nat)
    requires AttemptAt(o, k).Some?
    requires forall j :: 0 <= j < k ==> AttemptAt(o, j).None?
    ensures Search(o, 0).Success? <==> k < MaxAttempts
    ensures k < MaxAttempts ==> Search(o, 0).value == AttemptAt(o, k).value
  {
    SearchFindsFirst(o, 0);
    if Search(o, 0).Success? {
      var j: nat :| FirstSuccessAt(o, j) && Search(o, 0).value == AttemptAt(o, j).value;
      assert j == k;
    }
  }

  /** The oracles of the running service: locations come from `generate_random_location` on the given draws. */
  function SourceOracles(draws: nat -> TableDraw, metadata: (nat, Coordinate) -> MetadataReply,
                         image: (nat, string) -> ImageReply): (o: Oracles)
    ensures forall k :: SampleAt(o, k) == GenerateRandomLocation(draws(k))
  {
    Oracles((k: nat) => GenerateRandomLocation(draws(k)), metadata, image)
  }

  /** With the source's own sampler, a location the search returns lies inside one of the seven regions. */
  lemma SourceSearchInTable(draws: nat -> TableDraw, metadata: (nat, Coordinate) -> MetadataReply,
                            image: (nat, string) -> ImageReply)
    ensures var r := Search(SourceOracles(draws, metadata, image), 0);
            r.Success? ==> InTable(r.value.location)
  {
    var o := SourceOracles(draws, metadata, image);
    SearchFindsFirst(o, 0);
    if Search(o, 0).Success? {
      var j: nat :| FirstSuccessAt(o, j) && Search(o, 0).value == AttemptAt(o, j).value;
      assert Search(o, 0).value.location == GenerateRandomLocation(draws(j));
    }
  }

  const ExampleSpot := Coordinate(40_000_000, -74_000_000)
  const ExampleImage: seq<byte> := [0xFF, 0xD8, 0xFF]

  /**
   * Oracles where only `ExampleSpot` has coverage (pano id "pano123"), the
   * sampler reaches it on the third call, and the image of "pano123" is a JPEG.
   */
  function ExampleOracles(): Oracles {
    Oracles(
      (k: nat) => if k == 2 then ExampleSpot else Coordinate(0, 0),
      (k: nat, c: Coordinate) =>
        if c == ExampleSpot then MetadataResponse(200, Object(Some("OK"), Some("pano123")))
        else MetadataResponse(200, Object(Some("ZERO_RESULTS"), None)),
      (k: nat, pano: string) =>
        if pano == "pano123" then ImageResponse(200, Some("image/jpeg"), ExampleImage) else ImageRaised)
  }

  /** In that world the search ends on its third attempt with that spot, that image and that pano id. */
  lemma ThirdAttemptExample()
    ensures FirstSuccessAt(ExampleOracles(), 2)
    ensures Search(ExampleOracles(), 0) == Success(DiscoveryResult(ExampleSpot, ExampleImage, "pano123"))
  {
  }
}
