/** The web front-end: `WeatherApp.get_weather`, which turns a city name
    into either an eight-field weather summary or an error message and never
    raises, and the `/weather` handler that guards it against an empty city.
    Replies are the Python dicts the handler serialises. */
module WebApp {
  import opened Outcomes
  import opened Text
  import opened JsonTree
  import opened Provider

  const KeyMissingMessage := "API key not configured"
  const EmptyCityMessage := "Please enter a city name"

  /** The web front-end quotes an unknown city with double quotes. */
  const CityQuote := '"'

  /** The successful reply. Fields the source copies straight out of the
      decoded body stay decoded values of whatever type they had. */
  datatype Summary = Summary(
    city: Json,
    country: Json,
    temperature: int,
    feelsLike: int,
    humidity: Json,
    description: string,
    windSpeed: Json,
    icon: Json)

  /** The dict `get_weather` returns: `{'error': ...}` or the summary. */
  datatype Reply = Failed(error: string) | Weather(summary: Summary)

  /** The API key was found: Python's `if not self.api_key` rejects both an
      unset variable and an empty one. */
  predicate Configured(key: Option<string>) {
    key.Some? && key.value != ""
  }

  /** Everything the summary reads is present with a usable type: the body
      is a dict, `sys`, `main`, `wind` and `weather[0]` are dicts holding the
      read keys, the two temperatures are numbers, and the description is a
      string. */
  predicate HasSummaryFields(data: Json) {
    && Has(data, "name")
    && Has(data, "sys") && Has(data.fields["sys"], "country")
    && Has(data, "main")
    && Has(data.fields["main"], "temp") && IsNumber(data.fields["main"].fields["temp"])
    && Has(data.fields["main"], "feels_like") && IsNumber(data.fields["main"].fields["feels_like"])
    && Has(data.fields["main"], "humidity")
    && Has(data, "weather") && data.fields["weather"].JArr? && |data.fields["weather"].items| > 0
    && Has(data.fields["weather"].items[0], "description")
    && data.fields["weather"].items[0].fields["description"].JStr?
    && Has(data.fields["weather"].items[0], "icon")
    && Has(data, "wind") && Has(data.fields["wind"], "speed")
  }

  /** The dict literal of the success path, evaluated in source order; the
      first access that raises decides the exception. It succeeds exactly
      when every field is there, copies the passthrough fields unchanged,
      rounds the two temperatures to the nearest integer and title-cases the
      description. */
  function Reshape(data: Json): (r: Result<Summary, Fault>)
    ensures r.Success? <==> HasSummaryFields(data)
    ensures r.Success? ==>
      var main := data.fields["main"];
      var weather := data.fields["weather"].items[0];
      && r.value.city == data.fields["name"]
      && r.value.country == data.fields["sys"].fields["country"]
      && -0.5 <= NumberValue(main.fields["temp"]) - r.value.temperature as real <= 0.5
      && -0.5 <= NumberValue(main.fields["feels_like"]) - r.value.feelsLike as real <= 0.5
      && r.value.humidity == main.fields["humidity"]
      && r.value.description == Title(weather.fields["description"].s)
      && r.value.windSpeed == data.fields["wind"].fields["speed"]
      && r.value.icon == weather.fields["icon"]
  {
    var city :- Member(data, "name");
    var sys :- Member(data, "sys");
    var country :- Member(sys, "country");
    var main :- Member(data, "main");
    var temp :- Member(main, "temp");
    var temperature :- Round(temp);
    var feels :- Member(main, "feels_like");
    var feelsLike :- Round(feels);
    var humidity :- Member(main, "humidity");
    var weatherList :- Member(data, "weather");
    var weather :- First(weatherList);
    var rawDescription :- Member(weather, "description");
    var description :- TitleOf(rawDescription);
    var wind :- Member(data, "wind");
    var windSpeed :- Member(wind, "speed");
    var icon :- Member(weather, "icon");
    Success(Summary(city, country, temperature, feelsLike, humidity, description, windSpeed, icon))
  }

  /** The `try` block of `get_weather` for the already quote-stripped
      `city`: status dispatch, then reshaping, with every exception turned
      into an error reply. */
  function Attempt(city: string, resp: Response): (r: Reply)
    ensures r.Weather? <==>
      resp.Http? && resp.code == 200 && resp.body.Parsed? && HasSummaryFields(resp.body.json)
    ensures r.Weather? ==> Reshape(resp.body.json) == Success(r.summary)
    ensures r.Failed? ==> Diagnose(r.error, CityQuote) == CauseOf(city, resp)
  {
    DiagnoseInvertsMessages(city, resp, "", CityQuote);
    match resp
    case ConnectionFailure => Failed(NetworkMessage)
    case OtherFailure(message) => Failed(FetchErrorPrefix + message)
    case Http(code, reason, body) =>
      if code == 401 then Failed(InvalidKeyMessage)
      else if code == 404 then Failed(NotFoundMessage(city, CityQuote))
      else if code != 200 then Failed(ApiErrorMessage(code, reason))
      else
        match body
        case Unparsable(message) =>
          DiagnoseFetchError(message, CityQuote);
          Failed(FetchErrorPrefix + message)
        case Parsed(data) =>
          match Reshape(data)
          case Success(summary) => Weather(summary)
          case Failure(fault) =>
            DiagnoseFetchError(fault.message, CityQuote);
            Failed(FetchErrorPrefix + fault.message)
  }

  /** `WeatherApp.get_weather(city)` with the key the app was built with and
      `fetch` standing for the one `requests.get` call. */
  function GetWeather(key: Option<string>, city: string, fetch: Request -> Response): (r: Reply)
    ensures !Configured(key) ==> r == Failed(KeyMissingMessage)
    ensures Configured(key) ==>
      (r.Weather? <==>
        var resp := fetch(RequestFor(key.value, StripQuotes(city)));
        resp.Http? && resp.code == 200 && resp.body.Parsed? && HasSummaryFields(resp.body.json))
    ensures r.Weather? ==>
      var resp := fetch(RequestFor(key.value, StripQuotes(city)));
      && Configured(key)
      && resp.Http? && resp.code == 200 && resp.body.Parsed?
      && Reshape(resp.body.json) == Success(r.summary)
    ensures Configured(key) && r.Failed? ==>
      Diagnose(r.error, CityQuote) == CauseOf(StripQuotes(city), fetch(RequestFor(key.value, StripQuotes(city))))
  {
    if !Configured(key) then Failed(KeyMissingMessage)
    else
      var query := StripQuotes(city);
      Attempt(query, fetch(RequestFor(key.value, query)))
  }

  /** Without a key the reply is exactly the configuration error, whatever
      the city and whatever the provider would have said: the key check comes
      before quote stripping and before any request. */
  lemma MissingKeyComesFirst(key: Option<string>, city: string, f: Request -> Response, g: Request -> Response)
    requires !Configured(key)
    ensures GetWeather(key, city, f) == Failed(KeyMissingMessage)
    ensures GetWeather(key, city, f) == GetWeather(key, city, g)
  {
  }

  /** With a key, exactly one request is made, for the quote-stripped city
      with metric units, and the reply depends on nothing else the provider
      might answer. */
  lemma OneRequestForStrippedCity(key: Option<string>, city: string, f: Request -> Response, g: Request -> Response)
    requires Configured(key)
    requires f(RequestFor(key.value, StripQuotes(city))) == g(RequestFor(key.value, StripQuotes(city)))
    ensures GetWeather(key, city, f) == GetWeather(key, city, g)
    ensures RequestFor(key.value, StripQuotes(city)).units == "metric"
  {
  }

  /** The status dispatch as the web front-end words it, for the stripped
      `city`: 401, 404 and any other non-200 status each give their message,
      the 404 one naming the city in double quotes; transport failures give
      the network or the generic message; only a 200 gives weather. */
  lemma DispatchOrder(city: string, resp: Response)
    ensures resp.Http? && resp.code == 401 ==> Attempt(city, resp) == Failed(InvalidKeyMessage)
    ensures resp.Http? && resp.code == 404 ==>
      Attempt(city, resp) == Failed("City \"" + city + "\" not found. Please check the spelling.")
    ensures resp.Http? && resp.code !in {200, 401, 404} ==>
      Attempt(city, resp) == Failed("API Error: " + Decimal(resp.code) + " - " + resp.reason)
    ensures resp.ConnectionFailure? ==> Attempt(city, resp) == Failed(NetworkMessage)
    ensures resp.OtherFailure? ==> Attempt(city, resp) == Failed(FetchErrorPrefix + resp.message)
    ensures resp.Http? && resp.code == 200 && resp.body.Unparsable? ==>
      Attempt(city, resp) == Failed(FetchErrorPrefix + resp.body.message)
    ensures Attempt(city, resp).Weather? ==> resp.Http? && resp.code == 200
  {
    assert "City " + [CityQuote] == "City \"";
    assert [CityQuote] + NotFoundSuffix == "\" not found. Please check the spelling.";
    assert NotFoundMessage(city, CityQuote) == "City \"" + city + "\" not found. Please check the spelling.";
  }

  /** A 200 whose body lacks a field (or holds one of the wrong type) is
      reported through the generic message with the exception's text, e.g.
      `'name'` for a missing `name`. */
  lemma MissingFieldIsReported(city: string, code: int, reason: string, data: Json)
    requires code == 200 && !HasSummaryFields(data)
    ensures Attempt(city, Http(code, reason, Parsed(data))).Failed?
    ensures Reshape(data).Failure?
    ensures Attempt(city, Http(code, reason, Parsed(data)))
         == Failed(FetchErrorPrefix + Reshape(data).error.message)
    ensures data.JObj? && "name" !in data.fields ==>
      Attempt(city, Http(code, reason, Parsed(data))) == Failed(FetchErrorPrefix + "'name'")
  {
  }

  /** A description of "light rain" is shown as "Light Rain". */
  lemma LightRainIsTitleCased()
    ensures Title("light rain") == "Light Rain"
  {
    var s := "light rain";
    var r := Title(s);
    var t := "Light Rain";
    assert |r| == |t|;
    forall i | 0 <= i < |s|
      ensures r[i] == t[i]
    {
      if i == 5 {
        assert !IsLetter(s[i]);
      } else {
        TitleLowerAt(s, i);
      }
    }
  }

  /** The keys of the reply summary dict. */
  const SummaryKeys: set<string> :=
    {"city", "country", "temperature", "feels_like", "humidity", "description", "wind_speed", "icon"}

  /** The reply as the dict the handler serialises: a single `error` key, or
      exactly the eight summary keys, never a mixture. */
  function AsDict(r: Reply): (d: map<string, Json>)
    ensures r.Failed? ==> d.Keys == {"error"} && d["error"] == JStr(r.error)
    ensures r.Weather? ==> d.Keys == SummaryKeys && "error" !in d
    ensures r.Weather? ==>
      && d["city"] == r.summary.city
      && d["country"] == r.summary.country
      && d["temperature"] == JInt(r.summary.temperature)
      && d["feels_like"] == JInt(r.summary.feelsLike)
      && d["humidity"] == r.summary.humidity
      && d["description"] == JStr(r.summary.description)
      && d["wind_speed"] == r.summary.windSpeed
      && d["icon"] == r.summary.icon
  {
    match r
    case Failed(error) => map["error" := JStr(error)]
    case Weather(s) =>
      map[
        "city" := s.city,
        "country" := s.country,
        "temperature" := JInt(s.temperature),
        "feels_like" := JInt(s.feelsLike),
        "humidity" := s.humidity,
        "description" := JStr(s.description),
        "wind_speed" := s.windSpeed,
        "icon" := s.icon]
  }

  /** On success the passthrough keys of the reply hold exactly what the
      provider sent, and the description is title-cased. */
  lemma SuccessCopiesFields(key: Option<string>, city: string, fetch: Request -> Response)
    requires GetWeather(key, city, fetch).Weather?
    ensures var resp := fetch(RequestFor(key.value, StripQuotes(city)));
      var data := resp.body.json;
      var d := AsDict(GetWeather(key, city, fetch));
      && resp.Http? && resp.code == 200 && resp.body.Parsed?
      && d.Keys == SummaryKeys
      && d["city"] == data.fields["name"]
      && d["country"] == data.fields["sys"].fields["country"]
      && d["humidity"] == data.fields["main"].fields["humidity"]
      && d["wind_speed"] == data.fields["wind"].fields["speed"]
      && d["icon"] == data.fields["weather"].items[0].fields["icon"]
      && d["description"] == JStr(Title(data.fields["weather"].items[0].fields["description"].s))
  {
  }

  /** The `/weather` handler: the posted `city` (absent means `''`) is
      whitespace-trimmed, an empty result is refused before `get_weather` is
      called, and otherwise the trimmed city is looked up. */
  function HandleWeather(posted: Option<string>, key: Option<string>, fetch: Request -> Response): (r: Reply)
    ensures Trim(posted.GetOr("")) == "" ==> r == Failed(EmptyCityMessage)
    ensures Trim(posted.GetOr("")) != "" ==> r == GetWeather(key, Trim(posted.GetOr("")), fetch)
  {
    var city := Trim(posted.GetOr(""));
    if city == "" then Failed(EmptyCityMessage) else GetWeather(key, city, fetch)
  }

  /** An absent or blank city is refused with the same reply whatever the key
      and the provider: no lookup happens, so the empty-city check also comes
      before the key check. */
  lemma BlankCityIsRefused(posted: Option<string>, key: Option<string>, fetch: Request -> Response)
    requires posted.Some? ==> forall k :: 0 <= k < |posted.value| ==> posted.value[k] in Whitespace
    ensures HandleWeather(posted, key, fetch) == Failed(EmptyCityMessage)
  {
    StripAllEmpty(posted.GetOr(""), Whitespace);
  }

  /** Every reply of the handler is one of the two dict shapes. */
  lemma ReplyShape(posted: Option<string>, key: Option<string>, fetch: Request -> Response)
    ensures var d := AsDict(HandleWeather(posted, key, fetch));
      d.Keys == {"error"} || d.Keys == SummaryKeys
  {
  }

  /** The emptiness check runs before quotes are stripped, so a city made
      only of quotes passes it and the provider is asked about an empty
      name. */
  lemma QuotesOnlyReachProvider(s: string, key: string, fetch: Request -> Response)
    requires |s| > 0 && forall k :: 0 <= k < |s| ==> s[k] in Quotes
    requires key != ""
    ensures HandleWeather(Some(s), Some(key), fetch) == Attempt("", fetch(RequestFor(key, "")))
  {
    assert Trim(s) == s by {
      assert StripsTo(s, Whitespace, 0, |s|);
      StripUnique(s, Whitespace, 0, |s|);
    }
    StripAllEmpty(s, Quotes);
  }

  /** A city wrapped in quotes of either kind, in any mix, is looked up as
      the bare city. */
  lemma QuotedCityLooksUpBareCity(key: Option<string>, open: string, city: string, close: string, fetch: Request -> Response)
    requires forall k :: 0 <= k < |open| ==> open[k] in Quotes
    requires forall k :: 0 <= k < |close| ==> close[k] in Quotes
    ensures GetWeather(key, open + city + close, fetch) == GetWeather(key, city, fetch)
  {
    StripIgnoresPadding(open, city, close, Quotes);
  }
}
