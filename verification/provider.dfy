/** The weather provider as both front-ends see it: the request they build,
    the response (or transport failure) that comes back, the failure
    messages they share, and how a failure message can be read back into the
    failure that produced it. */
module Provider {
  import opened Text
  import opened JsonTree

  /** The provider's current-weather endpoint. */
  const Endpoint := "http://api.openweathermap.org/data/2.5/weather"

  /** A GET request with the query parameters `q`, `appid` and `units`. */
  datatype Request = Request(url: string, query: string, appid: string, units: string)

  /** The request both front-ends send for a (quote-stripped) city name. */
  function RequestFor(key: string, city: string): Request {
    Request(Endpoint, city, key, "metric")
  }

  /** The body of an HTTP response after `response.json()`: decoded, or the
      text of the decoding error. */
  datatype Payload = Parsed(json: Json) | Unparsable(message: string)

  /** What `requests.get` produces: an HTTP response, a
      `requests.exceptions.ConnectionError`, or another request exception
      carrying its `str(e)`. */
  datatype Response =
    | Http(code: int, reason: string, body: Payload)
    | ConnectionFailure
    | OtherFailure(message: string)

  const InvalidKeyMessage := "Invalid API key. " + "Please check your OpenWeatherMap API key."
  const NetworkMessage := "Network error: " + "Please check your internet connection."
  const FetchErrorPrefix := "Error fetching weather data: "
  const ApiErrorPrefix := "API Error: "
  const NotFoundSuffix := " not found. Please check the spelling."

  /** The message for a status that is neither 200, 401 nor 404. */
  function ApiErrorMessage(code: int, reason: string): string {
    ApiErrorPrefix + Decimal(code) + " - " + reason
  }

  /** The message for a 404; the front-ends differ only in the quote
      character around the city. */
  function NotFoundMessage(city: string, quote: char): string {
    "City " + [quote] + city + [quote] + NotFoundSuffix
  }

  /** Why a lookup produced no weather. */
  datatype Cause =
    | BadKey
    | UnknownCity(city: string)
    | ApiStatus(code: int)
    | Network
    | Exception
    | Unrecognised

  /** The failure class the front-ends assign to a response, in their order
      of tests: 401, then 404, then any other status but 200. A 200 fails
      only by an exception while its body is read. */
  function CauseOf(city: string, resp: Response): (c: Cause)
    ensures c == BadKey <==> resp.Http? && resp.code == 401
    ensures c == UnknownCity(city) <==> resp.Http? && resp.code == 404
    ensures c.ApiStatus? <==> resp.Http? && resp.code !in {200, 401, 404}
    ensures c.ApiStatus? ==> c.code == resp.code
    ensures c == Network <==> resp.ConnectionFailure?
    ensures c == Exception <==> resp.OtherFailure? || (resp.Http? && resp.code == 200)
    ensures c != Unrecognised
  {
    match resp
    case ConnectionFailure => Network
    case OtherFailure(_) => Exception
    case Http(code, _, _) =>
      if code == 401 then BadKey
      else if code == 404 then UnknownCity(city)
      else if code != 200 then ApiStatus(code)
      else Exception
  }

  predicate StartsWith(s: string, prefix: string) {
    |prefix| <= |s| && s[..|prefix|] == prefix
  }

  predicate EndsWith(s: string, suffix: string) {
    |suffix| <= |s| && s[|s| - |suffix|..] == suffix
  }

  /** The characters of `s` before its first space. */
  function WordBefore(s: string): (w: string)
    ensures |w| <= |s| && w == s[..|w|]
  {
    if |s| == 0 || s[0] == ' ' then "" else [s[0]] + WordBefore(s[1..])
  }

  /** Reads a failure message back into its cause; `quote` is the quote
      character the front-end puts around a city that was not found. */
  function Diagnose(message: string, quote: char): Cause {
    var cityPrefix := "City " + [quote];
    var citySuffix := [quote] + NotFoundSuffix;
    if message == InvalidKeyMessage then BadKey
    else if message == NetworkMessage then Network
    else if StartsWith(message, FetchErrorPrefix) then Exception
    else if StartsWith(message, ApiErrorPrefix) then
      var w := WordBefore(message[|ApiErrorPrefix|..]);
      if IsDecimal(w) then ApiStatus(DecimalValue(w)) else Unrecognised
    else if |cityPrefix| + |citySuffix| <= |message|
         && StartsWith(message, cityPrefix) && EndsWith(message, citySuffix) then
      UnknownCity(message[|cityPrefix|..|message| - |citySuffix|])
    else Unrecognised
  }

  /** The word before a space that follows a space-free word is that word. */
  lemma {:induction false} WordBeforeSpace(w: string, rest: string)
    requires forall i :: 0 <= i < |w| ==> w[i] != ' '
    requires |rest| > 0 && rest[0] == ' '
    ensures WordBefore(w + rest) == w
  {
    if |w| > 0 {
      assert (w + rest)[1..] == w[1..] + rest;
      WordBeforeSpace(w[1..], rest);
    } else {
      assert w + rest == rest;
    }
  }

  /** The fixed messages and prefixes begin with distinct letters, so a
      message's first character rules out every form beginning otherwise. */
  lemma FirstCharsDiffer(m: string)
    requires |m| > 0
    ensures m[0] != 'I' ==> m != InvalidKeyMessage
    ensures m[0] != 'N' ==> m != NetworkMessage
    ensures m[0] != 'E' ==> !StartsWith(m, FetchErrorPrefix)
    ensures m[0] != 'A' ==> !StartsWith(m, ApiErrorPrefix)
  {
    assert InvalidKeyMessage[0] == 'I';
    assert NetworkMessage[0] == 'N';
    assert FetchErrorPrefix[0] == 'E';
    assert ApiErrorPrefix[0] == 'A';
    if StartsWith(m, FetchErrorPrefix) {
      assert m[0] == m[..|FetchErrorPrefix|][0];
    }
    if StartsWith(m, ApiErrorPrefix) {
      assert m[0] == m[..|ApiErrorPrefix|][0];
    }
  }

  /** The API error message names the status code it was made from. */
  lemma DiagnoseApiError(code: int, reason: string, quote: char)
    ensures Diagnose(ApiErrorMessage(code, reason), quote) == ApiStatus(code)
  {
    var m := ApiErrorMessage(code, reason);
    var d := Decimal(code);
    DecimalRoundTrip(code);
    assert m[0] == 'A';
    FirstCharsDiffer(m);
    assert m[..|ApiErrorPrefix|] == ApiErrorPrefix;
    assert m[|ApiErrorPrefix|..] == d + (" - " + reason);
    WordBeforeSpace(d, " - " + reason);
  }

  /** The not-found message names the city it was made from. */
  lemma DiagnoseNotFound(city: string, quote: char)
    ensures Diagnose(NotFoundMessage(city, quote), quote) == UnknownCity(city)
  {
    var m := NotFoundMessage(city, quote);
    var cityPrefix := "City " + [quote];
    var citySuffix := [quote] + NotFoundSuffix;
    assert m == cityPrefix + city + citySuffix;
    assert m[0] == 'C';
    FirstCharsDiffer(m);
    assert m[..|cityPrefix|] == cityPrefix;
    assert m[|m| - |citySuffix|..] == citySuffix;
    assert m[|cityPrefix|..|m| - |citySuffix|] == city;
  }

  /** An exception message keeps its prefix whatever the exception says. */
  lemma DiagnoseFetchError(detail: string, quote: char)
    ensures Diagnose(FetchErrorPrefix + detail, quote) == Exception
  {
    var m := FetchErrorPrefix + detail;
    assert m[0] == 'E';
    FirstCharsDiffer(m);
    assert m[..|FetchErrorPrefix|] == FetchErrorPrefix;
  }

  /** Every failure message either front-end gives for a response reads
      back as the cause `CauseOf` assigns to it: the messages of different
      branches never coincide, and the 404 and other-status messages keep the
      city and the code. */
  lemma DiagnoseInvertsMessages(city: string, resp: Response, detail: string, quote: char)
    ensures resp.ConnectionFailure? ==> Diagnose(NetworkMessage, quote) == CauseOf(city, resp)
    ensures resp.OtherFailure? ==> Diagnose(FetchErrorPrefix + resp.message, quote) == CauseOf(city, resp)
    ensures resp.Http? && resp.code == 401 ==> Diagnose(InvalidKeyMessage, quote) == CauseOf(city, resp)
    ensures resp.Http? && resp.code == 404 ==>
      Diagnose(NotFoundMessage(city, quote), quote) == CauseOf(city, resp)
    ensures resp.Http? && resp.code !in {200, 401, 404} ==>
      Diagnose(ApiErrorMessage(resp.code, resp.reason), quote) == CauseOf(city, resp)
    ensures resp.Http? && resp.code == 200 ==>
      Diagnose(FetchErrorPrefix + detail, quote) == CauseOf(city, resp)
  {
    DiagnoseNotFound(city, quote);
    DiagnoseFetchError(detail, quote);
    if resp.OtherFailure? {
      DiagnoseFetchError(resp.message, quote);
    }
    if resp.Http? {
      DiagnoseApiError(resp.code, resp.reason, quote);
    }
  }
}
