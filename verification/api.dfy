/**
 * The backend URL helpers of the dashboard: the configured base URL, the four
 * endpoint URLs built from it by plain string concatenation, and the mapping
 * of a status request's outcome to a poll result. Each URL builder with
 * parameters has an inverse parser; the round-trip lemmas show that the
 * parameters (and their defaults) are recoverable from the URL.
 */
module Api {
  import opened Optional
  import opened Strings
  import opened Decimal

  /** Base URL used when the deployment does not configure one. */
  const DefaultBaseUrl: string := "http://127.0.0.1:8000"

  const DefaultFps: nat := 10
  const DefaultQuality: nat := 75
  const DefaultRecentLimit: nat := 200

  datatype CameraStats = CameraStats(framesDecoded: nat, framesEmitted: nat, lastTsMs: nat)

  /** One entry of the status endpoint's response. */
  datatype CameraStatus = CameraStatus(cameraId: string, enabled: bool, stats: CameraStats)

  /** A value thrown by a rejected request: an `Error` object (with its message) or anything else. */
  datatype Thrown = ErrorObject(message: string) | OtherValue

  /** What one status request can come back with. */
  datatype StatusResponse =
    | Ok(body: seq<CameraStatus>)
    | NotOk(statusText: string)
    | NetworkFailure(thrown: Thrown)

  /** The settled outcome of one status request, as its caller sees it. */
  datatype Poll = Success(cameras: seq<CameraStatus>) | Failure(thrown: Thrown)

  /** The configured base, falling back to the default when the setting is absent or empty. */
  function ResolveBaseUrl(configured: Option<string>): (base: string)
    ensures configured.Some? && configured.value != [] ==> base == configured.value
    ensures configured.None? || configured.value == [] ==> base == DefaultBaseUrl
    ensures base != []
  {
    if configured.Some? && configured.value != [] then configured.value else DefaultBaseUrl
  }

  function StatusUrl(base: string): (url: string)
    ensures StartsWith(url, base)
    ensures url[|base|..] == "/cameras/status"
  {
    base + "/cameras/status"
  }

  function RecentEventsPrefix(base: string): string {
    base + "/events/recent?limit="
  }

  /** URL of the recent-events endpoint; the limit defaults to 200. */
  function RecentEventsUrl(base: string, limit: Option<nat>): (url: string)
    ensures StartsWith(url, RecentEventsPrefix(base))
    ensures AllDigits(url[|RecentEventsPrefix(base)|..])
  {
    RecentEventsPrefix(base) + NatToDecimal(limit.GetOr(DefaultRecentLimit))
  }

  /** Recovers the limit from a recent-events URL for `base`. */
  function ParseRecentEventsUrl(base: string, url: string): (limit: Option<nat>)
    ensures limit.Some? ==> StartsWith(url, RecentEventsPrefix(base))
  {
    var digits :- StripPrefix(url, RecentEventsPrefix(base));
    var read :- ReadNat(digits);
    if read.1 == [] then Some(read.0) else None
  }

  lemma RecentEventsRoundTrip(base: string, limit: Option<nat>)
    ensures ParseRecentEventsUrl(base, RecentEventsUrl(base, limit)) == Some(limit.GetOr(DefaultRecentLimit))
  {
    var d := NatToDecimal(limit.GetOr(DefaultRecentLimit));
    StripPrefixOfConcat(RecentEventsPrefix(base), d);
    ReadNatOfDecimal(limit.GetOr(DefaultRecentLimit), []);
    assert d + [] == d;
  }

  function EventStreamUrl(base: string): (url: string)
    ensures StartsWith(url, base)
    ensures url[|base|..] == "/events/stream"
    ensures url != StatusUrl(base)
  {
    assert (base + "/events/stream")[|base| + 1] == 'e' != StatusUrl(base)[|base| + 1];
    base + "/events/stream"
  }

  /** The path of one camera's MJPEG feed, up to (not including) the query. The id is not encoded. */
  function MjpegPath(base: string, cameraId: string): string {
    base + "/cameras/" + cameraId + "/mjpeg"
  }

  /** The optional cache-busting parameter; the digits of a number need no URI encoding. */
  function NonceSuffix(nonce: Option<nat>): string {
    match nonce
    case None => ""
    case Some(n) => "&_=" + NatToDecimal(n)
  }

  /** The query of an MJPEG feed URL after `?fps=`: the fps digits, the quality and the optional nonce. */
  function MjpegQueryTail(fps: nat, quality: nat, nonce: Option<nat>): string {
    NatToDecimal(fps) + ("&quality=" + (NatToDecimal(quality) + NonceSuffix(nonce)))
  }

  /** URL of one camera's MJPEG feed; fps defaults to 10 and quality to 75. */
  function MjpegUrl(base: string, cameraId: string, fps: Option<nat>, quality: Option<nat>, nonce: Option<nat>): (url: string)
    ensures StartsWith(url, base + "/cameras/" + cameraId)
    ensures StartsWith(url, MjpegPath(base, cameraId) + "?fps=")
  {
    var head := MjpegPath(base, cameraId) + "?fps=";
    var tail := MjpegQueryTail(fps.GetOr(DefaultFps), quality.GetOr(DefaultQuality), nonce);
    assert (head + tail)[..|head|] == head;
    assert head[..|base + "/cameras/" + cameraId|] == base + "/cameras/" + cameraId;
    head + tail
  }

  /** The query parameters of an MJPEG feed URL. */
  datatype MjpegParams = MjpegParams(fps: nat, quality: nat, nonce: Option<nat>)

  /** Reads fps, quality and the optional nonce from what follows `?fps=`. */
  function ParseMjpegQueryTail(s: string): Option<MjpegParams> {
    var fps :- ReadNat(s);
    var afterQuality :- StripPrefix(fps.1, "&quality=");
    var quality :- ReadNat(afterQuality);
    if quality.1 == [] then Some(MjpegParams(fps.0, quality.0, None))
    else
      var afterNonce :- StripPrefix(quality.1, "&_=");
      var nonce :- ReadNat(afterNonce);
      if nonce.1 == [] then Some(MjpegParams(fps.0, quality.0, Some(nonce.0))) else None
  }

  /** Recovers fps, quality and nonce from an MJPEG URL for the given base and camera. */
  function ParseMjpegUrl(base: string, cameraId: string, url: string): (p: Option<MjpegParams>)
    ensures p.Some? ==> StartsWith(url, MjpegPath(base, cameraId) + "?fps=")
  {
    var tail :- StripPrefix(url, MjpegPath(base, cameraId) + "?fps=");
    ParseMjpegQueryTail(tail)
  }

  /** The suffix after the quality digits is read back as the nonce it encodes. */
  lemma ParseNonceSuffix(q: nat, nonce: Option<nat>)
    ensures ReadNat(NatToDecimal(q) + NonceSuffix(nonce)) == Some((q, NonceSuffix(nonce)))
    ensures nonce.None? <==> NonceSuffix(nonce) == []
    ensures nonce.Some? ==> StripPrefix(NonceSuffix(nonce), "&_=") == Some(NatToDecimal(nonce.value))
    ensures nonce.Some? ==> ReadNat(NatToDecimal(nonce.value)) == Some((nonce.value, []))
  {
    ReadNatOfDecimal(q, NonceSuffix(nonce));
    if nonce.Some? {
      StripPrefixOfConcat("&_=", NatToDecimal(nonce.value));
      ReadNatOfDecimal(nonce.value, []);
      assert NatToDecimal(nonce.value) + [] == NatToDecimal(nonce.value);
    }
  }

  lemma MjpegQueryTailRoundTrip(fps: nat, quality: nat, nonce: Option<nat>)
    ensures ParseMjpegQueryTail(MjpegQueryTail(fps, quality, nonce)) == Some(MjpegParams(fps, quality, nonce))
  {
    var rest := NatToDecimal(quality) + NonceSuffix(nonce);
    ReadNatOfDecimal(fps, "&quality=" + rest);
    StripPrefixOfConcat("&quality=", rest);
    ParseNonceSuffix(quality, nonce);
  }

  /** Parsing an MJPEG URL gives back the parameters it was built with, defaults filled in. */
  lemma MjpegRoundTrip(base: string, cameraId: string, fps: Option<nat>, quality: Option<nat>, nonce: Option<nat>)
    ensures ParseMjpegUrl(base, cameraId, MjpegUrl(base, cameraId, fps, quality, nonce))
         == Some(MjpegParams(fps.GetOr(DefaultFps), quality.GetOr(DefaultQuality), nonce))
  {
    var head := MjpegPath(base, cameraId) + "?fps=";
    var tail := MjpegQueryTail(fps.GetOr(DefaultFps), quality.GetOr(DefaultQuality), nonce);
    StripPrefixOfConcat(head, tail);
    MjpegQueryTailRoundTrip(fps.GetOr(DefaultFps), quality.GetOr(DefaultQuality), nonce);
  }

  /** Different nonces give different URLs, so bumping the nonce always re-requests the feed. */
  lemma MjpegNonceDistinguishes(base: string, cameraId: string, fps: Option<nat>, quality: Option<nat>, n1: nat, n2: nat)
    requires n1 != n2
    ensures MjpegUrl(base, cameraId, fps, quality, Some(n1)) != MjpegUrl(base, cameraId, fps, quality, Some(n2))
  {
    MjpegRoundTrip(base, cameraId, fps, quality, Some(n1));
    MjpegRoundTrip(base, cameraId, fps, quality, Some(n2));
  }

  /** With a nonce, the URL is the nonce-free URL followed by `&_=` and the nonce's digits. */
  lemma MjpegNonceIsSuffix(base: string, cameraId: string, fps: Option<nat>, quality: Option<nat>, n: nat)
    ensures MjpegUrl(base, cameraId, fps, quality, Some(n))
         == MjpegUrl(base, cameraId, fps, quality, None) + "&_=" + NatToDecimal(n)
  {
  }

  /** The poll result of one status request: a non-2xx response becomes a thrown `Error`. */
  function GetCameraStatus(response: StatusResponse): (p: Poll)
    ensures response.Ok? <==> p.Success?
    ensures response.Ok? ==> p.cameras == response.body
    ensures response.NotOk? ==>
              && p.thrown.ErrorObject?
              && StartsWith(p.thrown.message, "Failed to fetch camera status: ")
              && p.thrown.message[31..] == response.statusText
    ensures response.NetworkFailure? ==> p.thrown == response.thrown
  {
    match response
    case Ok(body) => Success(body)
    case NotOk(statusText) => Failure(ErrorObject("Failed to fetch camera status: " + statusText))
    case NetworkFailure(thrown) => Failure(thrown)
  }
}
