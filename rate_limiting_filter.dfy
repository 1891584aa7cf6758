/**
 * The request filter in front of the limiter (RateLimitingFilter).
 *
 * For every request it reads the `X-API-KEY` header. A missing or blank key is
 * answered with 401 and never reaches the limiter. Otherwise the limiter counts
 * the request: an admitted request is passed down the filter chain, a refused
 * one is answered with 429. The response and the chain are modelled as the
 * `Response` value the filter produces.
 */
module Filter {
  import opened Wrappers
  import opened RateLimiting

  const UnauthorizedStatus: int := 401
  const TooManyRequestsStatus: int := 429
  const MissingKeyMessage: string := "API Key is missing."
  const TooManyRequestsMessage: string := "Too many requests for this API Key."

  /**
   * Java's Character.isWhitespace: the Unicode space, line and paragraph
   * separators except the non-breaking spaces U+00A0, U+2007 and U+202F,
   * together with the controls U+0009..U+000D and U+001C..U+001F.
   */
  predicate IsWhitespace(c: char)
  {
    var n := c as int;
    || 0x09 <= n <= 0x0D
    || 0x1C <= n <= 0x20
    || n == 0x1680
    || 0x2000 <= n <= 0x2006
    || 0x2008 <= n <= 0x200A
    || n == 0x2028 || n == 0x2029
    || n == 0x205F
    || n == 0x3000
  }

  /** Java's String.isBlank: the string is empty or holds only whitespace. */
  function IsBlank(s: string): (b: bool)
    ensures b <==> forall i :: 0 <= i < |s| ==> IsWhitespace(s[i])
  {
    if s == [] then true
    else IsWhitespace(s[0]) && IsBlank(s[1..])
  }

  /** The header is absent (`getHeader` returned null) or blank. */
  predicate ApiKeyMissing(header: Option<string>)
  {
    header.None? || IsBlank(header.value)
  }

  /** The three ways the filter can answer a request. */
  datatype Decision = Unauthorized | Forward | TooMany

  /** The decision for one request and the limiter's records afterwards. */
  datatype FilterStep = FilterStep(decision: Decision, counts: map<string, Entry>)

  /**
   * What the filter decides for a request with header `header`, given the
   * limiter's records `counts` and its limit, at `currentTime`.
   */
  function Decide(header: Option<string>, counts: map<string, Entry>, limit: int, currentTime: nat): (r: FilterStep)
    // 401 exactly when the key is missing or blank, and then the limiter is not consulted
    ensures r.decision == Unauthorized <==> ApiKeyMissing(header)
    ensures r.decision == Unauthorized ==> r.counts == counts
    // otherwise the limiter counts the request, and it is forwarded exactly when admitted
    ensures !ApiKeyMissing(header) ==>
      var a := Admit(counts, limit, header.value, currentTime);
      && r.counts == a.counts
      && (r.decision == Forward <==> a.allowed)
      && (r.decision == TooMany <==> !a.allowed)
  {
    if ApiKeyMissing(header) then FilterStep(Unauthorized, counts)
    else
      var a := Admit(counts, limit, header.value, currentTime);
      FilterStep(if a.allowed then Forward else TooMany, a.counts)
  }

  /**
   * What the filter does to the response and the chain. `status` and `body` are
   * what it sets and writes (None and "" when it leaves the response alone);
   * `chainInvoked` says whether it calls `filterChain.doFilter`.
   */
  datatype Response = Response(status: Option<int>, body: string, chainInvoked: bool)

  /** The response effects of each decision; exactly one of 401, forwarding and 429 happens. */
  function Respond(d: Decision): (r: Response)
    ensures r.chainInvoked <==> d == Forward
    ensures r.status == Some(UnauthorizedStatus) <==> d == Unauthorized
    ensures r.status == Some(TooManyRequestsStatus) <==> d == TooMany
    ensures d == Unauthorized ==> r.body == MissingKeyMessage
    ensures d == TooMany ==> r.body == TooManyRequestsMessage
    ensures d == Forward ==> r.status.None? && r.body == ""
  {
    match d
    case Unauthorized => Response(Some(UnauthorizedStatus), MissingKeyMessage, false)
    case Forward => Response(None, "", true)
    case TooMany => Response(Some(TooManyRequestsStatus), TooManyRequestsMessage, false)
  }

  /** Whitespace-only keys are blank, but a key made of non-breaking spaces is not. */
  lemma BlankKeyExamples()
    ensures IsBlank("") && IsBlank(" \t\r\n")
    ensures !IsBlank("\U{00A0}") && !IsBlank(" key ")
  {
    assert !IsWhitespace('\U{00A0}');
    assert !IsWhitespace('k');
  }

  class RateLimitingFilter {
    const rateLimitingService: RateLimitingService

    constructor (rateLimitingService: RateLimitingService)
      ensures this.rateLimitingService == rateLimitingService
    {
      this.rateLimitingService := rateLimitingService;
    }

    /**
     * Handles one request whose `X-API-KEY` header is `apiKeyHeader`, with the
     * limiter's clock reading `currentTime`.
     */
    method DoFilterInternal(apiKeyHeader: Option<string>, currentTime: nat) returns (response: Response)
      requires rateLimitingService.Valid()
      modifies rateLimitingService, rateLimitingService.owner.Keys
      ensures rateLimitingService.Valid()
      // any record the limiter allocates is new, so the caller's own objects stay untouched
      ensures fresh(rateLimitingService.owner.Keys - old(rateLimitingService.owner.Keys))
      ensures var step := Decide(apiKeyHeader, old(rateLimitingService.entries), rateLimitingService.requestsPerMinute, currentTime);
              rateLimitingService.entries == step.counts && response == Respond(step.decision)
      ensures ApiKeyMissing(apiKeyHeader) ==> unchanged(rateLimitingService)
    {
      if apiKeyHeader.None? || IsBlank(apiKeyHeader.value) {
        response := Response(Some(UnauthorizedStatus), MissingKeyMessage, false);
        return;
      }
      var allowed := rateLimitingService.IsAllowed(apiKeyHeader.value, currentTime);
      if allowed {
        response := Response(None, "", true);
      } else {
        response := Response(Some(TooManyRequestsStatus), TooManyRequestsMessage, false);
      }
    }
  }
}
