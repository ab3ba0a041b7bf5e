/**
 * How `check_panorama_availability` and `get_panorama_image` interpret the
 * Street View provider's responses. The HTTP exchange itself is an input:
 * each call is described by the response it received, or by the fact that
 * the request raised (timeout, connection failure, ...).
 */
module Provider {
  import opened Wrappers

  newtype byte = x: int | 0 <= x < 256

  /** The parsed JSON body of a metadata response. */
  datatype MetadataBody =
    | NotJson                                         // `response.json()` raises
    | NotObject                                       // valid JSON without a `.get` (a list, a number, ...)
    | Object(status: Option<string>, panoId: Option<string>)  // the `status` and `pano_id` keys, when present and not null

  /** What the metadata request produced. */
  datatype MetadataReply =
    | MetadataRaised                                  // `requests.get` raised
    | MetadataResponse(code: int, body: MetadataBody)

  /** What the image request produced; `contentType` is the `content-type` header, if sent. */
  datatype ImageReply =
    | ImageRaised
    | ImageResponse(code: int, contentType: Option<string>, content: seq<byte>)

  /** `raise_for_status()` raises for client (4xx) and server (5xx) error codes only. */
  predicate RaisesForStatus(code: int) {
    400 <= code < 600
  }

  const StatusOk: string := "OK"
  const ImagePrefix: string := "image/"

  /**
   * The three outcomes a provider call can really have. The source keeps
   * only two of them: a transient failure reads exactly like an absence.
   */
  datatype Lookup<T> = Found(value: T) | NotAvailable | TransientError

  function Collapse<T>(l: Lookup<T>): (o: Option<T>)
    ensures o.Some? <==> l.Found?
    ensures l.Found? ==> o.value == l.value
  {
    if l.Found? then Some(l.value) else None
  }

  /** Classification of a metadata reply, separating transport and parse failures from absence. */
  function ClassifyMetadata(reply: MetadataReply): Lookup<string> {
    match reply
    case MetadataRaised => TransientError
    case MetadataResponse(code, body) =>
      if RaisesForStatus(code) || body.NotJson? || body.NotObject? then TransientError
      else if body.status != Some(StatusOk) || body.panoId.None? then NotAvailable
      else Found(body.panoId.value)
  }

  /**
   * `check_panorama_availability`: the provider's pano id exactly when the
   * request returned a non-error status, the body parsed as a JSON object
   * and its status is "OK" (and it carries a `pano_id`); `None` otherwise.
   * No failure propagates: the result type has no error case.
   */
  function CheckPanorama(reply: MetadataReply): (pano: Option<string>)
    ensures pano.Some? <==> (reply.MetadataResponse? && !RaisesForStatus(reply.code)
                             && reply.body.Object? && reply.body.status == Some(StatusOk)
                             && reply.body.panoId.Some?)
    ensures pano.Some? ==> pano.value == reply.body.panoId.value
  {
    if reply.MetadataRaised? then None
    else if RaisesForStatus(reply.code) then None
    else match reply.body
      case NotJson => None
      case NotObject => None
      case Object(status, panoId) => if status == Some(StatusOk) then panoId else None
  }

  /** The availability check is the three-way classification with its failures collapsed into `None`. */
  lemma CheckPanoramaCollapses(reply: MetadataReply)
    ensures CheckPanorama(reply) == Collapse(ClassifyMetadata(reply))
    ensures ClassifyMetadata(reply).TransientError? ==> CheckPanorama(reply) == None
  {
  }

  /** Classification of an image reply. */
  function ClassifyImage(reply: ImageReply): Lookup<seq<byte>> {
    match reply
    case ImageRaised => TransientError
    case ImageResponse(code, contentType, content) =>
      // a missing header makes `.startswith` raise on `None`
      if RaisesForStatus(code) || contentType.None? then TransientError
      else if ImagePrefix <= contentType.value then Found(content)
      else NotAvailable
  }

  /**
   * `get_panorama_image`: the response body exactly when the request
   * returned a non-error status and the content type starts with "image/"
   * (case-sensitively); `None` for any other type, a missing header or a
   * raised request.
   */
  function FetchImage(reply: ImageReply): (image: Option<seq<byte>>)
    ensures image.Some? <==> (reply.ImageResponse? && !RaisesForStatus(reply.code)
                              && reply.contentType.Some? && ImagePrefix <= reply.contentType.value)
    ensures image.Some? ==> image.value == reply.content
  {
    match reply
    case ImageRaised => None
    case ImageResponse(code, contentType, content) =>
      if RaisesForStatus(code) then None
      else if contentType.None? then None
      else if |contentType.value| >= |ImagePrefix| && contentType.value[..|ImagePrefix|] == ImagePrefix
      then Some(content)
      else None
  }

  /** The image fetch is the three-way classification with its failures collapsed into `None`. */
  lemma FetchImageCollapses(reply: ImageReply)
    ensures FetchImage(reply) == Collapse(ClassifyImage(reply))
    ensures ClassifyImage(reply).TransientError? ==> FetchImage(reply) == None
  {
  }
}
