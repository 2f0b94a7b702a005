/** The command-line front-end: `WeatherApp.get_weather`, which returns the
    decoded body or reports a failure and returns `None`; `display_weather`,
    which reads the fields it shows and picks a temperature emoji; and the
    line-by-line decisions of `main`. Printing is left out: a report is the
    message that would be printed, without its leading emoji. */
module Cli {
  import opened Outcomes
  import opened Text
  import opened JsonTree
  import opened Provider

  /** The command-line front-end quotes an unknown city with single quotes. */
  const CityQuote := '\''

  /** What `get_weather` returns: the decoded body, or `None` after a failure
      message has been printed. */
  datatype Answer = Data(json: Json) | Reported(message: string)

  /** The `try` block of `get_weather` for the already quote-stripped `city`.
      Only a 200 whose body decodes returns data, and that data is the body
      unchanged; every failure message reads back as its cause. */
  function Attempt(city: string, resp: Response): (r: Answer)
    ensures r.Data? <==> resp.Http? && resp.code == 200 && resp.body.Parsed?
    ensures r.Data? ==> r.json == resp.body.json
    ensures r.Reported? ==> Diagnose(r.message, CityQuote) == CauseOf(city, resp)
  {
    DiagnoseInvertsMessages(city, resp, "", CityQuote);
    match resp
    case ConnectionFailure => Reported(NetworkMessage)
    case OtherFailure(message) => Reported(FetchErrorPrefix + message)
    case Http(code, reason, body) =>
      if code == 401 then Reported(InvalidKeyMessage)
      else if code == 404 then Reported(NotFoundMessage(city, CityQuote))
      else if code != 200 then Reported(ApiErrorMessage(code, reason))
      else
        match body
        case Parsed(data) => Data(data)
        case Unparsable(message) =>
          DiagnoseFetchError(message, CityQuote);
          Reported(FetchErrorPrefix + message)
  }

  /** `WeatherApp.get_weather(city)`, `fetch` standing for the one
      `requests.get` call. */
  function GetWeather(key: string, city: string, fetch: Request -> Response): (r: Answer)
    ensures var resp := fetch(RequestFor(key, StripQuotes(city)));
      r.Data? <==> resp.Http? && resp.code == 200 && resp.body.Parsed?
    ensures r.Data? ==> r.json == fetch(RequestFor(key, StripQuotes(city))).body.json
    ensures r.Reported? ==>
      Diagnose(r.message, CityQuote) == CauseOf(StripQuotes(city), fetch(RequestFor(key, StripQuotes(city))))
  {
    var query := StripQuotes(city);
    Attempt(query, fetch(RequestFor(key, query)))
  }

  /** The status dispatch as the command line words it, for the stripped
      `city`: 401, 404 and any other non-200 status each give their message,
      the 404 one naming the city in single quotes; a connection failure gives
      the network message and any other request exception the generic one;
      none of these returns data. */
  lemma DispatchOrder(city: string, resp: Response)
    ensures resp.Http? && resp.code == 401 ==> Attempt(city, resp) == Reported(InvalidKeyMessage)
    ensures resp.Http? && resp.code == 404 ==>
      Attempt(city, resp) == Reported("City '" + city + "' not found. Please check the spelling.")
    ensures resp.Http? && resp.code !in {200, 401, 404} ==>
      Attempt(city, resp) == Reported("API Error: " + Decimal(resp.code) + " - " + resp.reason)
    ensures resp.ConnectionFailure? ==> Attempt(city, resp) == Reported(NetworkMessage)
    ensures resp.OtherFailure? ==> Attempt(city, resp) == Reported(FetchErrorPrefix + resp.message)
    ensures resp.Http? && resp.code == 200 && resp.body.Unparsable? ==>
      Attempt(city, resp) == Reported(FetchErrorPrefix + resp.body.message)
  {
    assert "City " + [CityQuote] == "City '";
    assert [CityQuote] + NotFoundSuffix == "' not found. Please check the spelling.";
    assert NotFoundMessage(city, CityQuote) == "City '" + city + "' not found. Please check the spelling.";
  }

  /** Exactly one request is made, for the quote-stripped city, and the
      answer depends on nothing else the provider might answer. */
  lemma OneRequestForStrippedCity(key: string, city: string, f: Request -> Response, g: Request -> Response)
    requires f(RequestFor(key, StripQuotes(city))) == g(RequestFor(key, StripQuotes(city)))
    ensures GetWeather(key, city, f) == GetWeather(key, city, g)
  {
  }

  // ---------------------------------------------------------------------
  // display_weather
  // ---------------------------------------------------------------------

  /** Everything `display_weather` reads is present with a usable type; the
      temperature is compared with numbers, so it must be one. */
  predicate HasDisplayFields(data: Json) {
    && Has(data, "name")
    && Has(data, "sys") && Has(data.fields["sys"], "country")
    && Has(data, "main")
    && Has(data.fields["main"], "temp") && IsNumber(data.fields["main"].fields["temp"])
    && Has(data.fields["main"], "feels_like")
    && Has(data.fields["main"], "humidity")
    && Has(data, "weather") && data.fields["weather"].JArr? && |data.fields["weather"].items| > 0
    && Has(data.fields["weather"].items[0], "description")
    && data.fields["weather"].items[0].fields["description"].JStr?
    && Has(data, "wind") && Has(data.fields["wind"], "speed")
  }

  /** The temperature thresholds, each the strict upper bound of a bucket. */
  const Thresholds: seq<real> := [0.0, 10.0, 20.0, 30.0]

  /** How many of the thresholds `t` has reached. */
  function Reached(ts: seq<real>, t: real): (n: nat)
    ensures n <= |ts|
  {
    if |ts| == 0 then 0 else (if ts[0] <= t then 1 else 0) + Reached(ts[1..], t)
  }

  /** Reaching more is never undone by a higher temperature. */
  lemma {:induction false} ReachedMonotone(ts: seq<real>, t: real, u: real)
    requires t <= u
    ensures Reached(ts, t) <= Reached(ts, u)
  {
    if |ts| > 0 {
      ReachedMonotone(ts[1..], t, u);
    }
  }

  /** `Reached` unrolled over the four thresholds. */
  lemma ReachedThresholds(t: real)
    ensures Reached(Thresholds, t)
         == (if 0.0 <= t then 1 else 0) + (if 10.0 <= t then 1 else 0)
          + (if 20.0 <= t then 1 else 0) + (if 30.0 <= t then 1 else 0)
  {
    var ts := Thresholds;
    assert ts[1..] == [10.0, 20.0, 30.0];
    assert ts[1..][1..] == [20.0, 30.0];
    assert ts[1..][1..][1..] == [30.0];
    assert [30.0][1..] == [];
    assert Reached([30.0], t) == (if 30.0 <= t then 1 else 0);
    assert Reached([20.0, 30.0], t) == (if 20.0 <= t then 1 else 0) + Reached([30.0], t);
    assert Reached([10.0, 20.0, 30.0], t) == (if 10.0 <= t then 1 else 0) + Reached([20.0, 30.0], t);
  }

  /** The emoji chosen for a temperature, as an index into the five emoji
      from coldest to hottest. The bucket is the number of thresholds the
      temperature has reached, so exactly 0 is in the second bucket and 30 or
      more in the fifth. */
  function Bucket(t: real): (b: nat)
    ensures b < 5
    ensures b == Reached(Thresholds, t)
  {
    ReachedThresholds(t);
    if t < 0.0 then 0
    else if t < 10.0 then 1
    else if t < 20.0 then 2
    else if t < 30.0 then 3
    else 4
  }

  /** A warmer temperature never gets a colder emoji. */
  lemma BucketMonotone(t: real, u: real)
    requires t <= u
    ensures Bucket(t) <= Bucket(u)
  {
    ReachedMonotone(Thresholds, t, u);
  }

  /** The boundaries fall on the warmer side. */
  lemma BucketBoundaries()
    ensures Bucket(-0.5) == 0 && Bucket(0.0) == 1 && Bucket(9.9) == 1
    ensures Bucket(10.0) == 2 && Bucket(20.0) == 3 && Bucket(29.9) == 3 && Bucket(30.0) == 4
  {
  }

  /** What `display_weather` shows: the emoji bucket and the fields it
      reads, with the description title-cased. */
  datatype Report = Report(
    bucket: nat,
    city: Json,
    country: Json,
    temp: Json,
    feelsLike: Json,
    humidity: Json,
    description: string,
    windSpeed: Json)

  /** `display_weather(data)`. Falsy data shows nothing and reads no field;
      truthy data must carry the fields it reads (the source has no handler
      for a missing one). The values are shown as they came, apart from the
      title-cased description. */
  function Display(data: Json): (r: Option<Report>)
    requires Truthy(data) ==> HasDisplayFields(data)
    ensures r.None? <==> !Truthy(data)
    ensures r.Some? ==>
      var main := data.fields["main"];
      var weather := data.fields["weather"].items[0];
      && r.value.city == data.fields["name"]
      && r.value.country == data.fields["sys"].fields["country"]
      && r.value.temp == main.fields["temp"]
      && r.value.bucket == Reached(Thresholds, NumberValue(main.fields["temp"]))
      && r.value.feelsLike == main.fields["feels_like"]
      && r.value.humidity == main.fields["humidity"]
      && r.value.description == Title(weather.fields["description"].s)
      && r.value.windSpeed == data.fields["wind"].fields["speed"]
  {
    if !Truthy(data) then None
    else
      var main := data.fields["main"];
      var weather := data.fields["weather"].items[0];
      var temp := main.fields["temp"];
      Some(Report(
        Bucket(NumberValue(temp)),
        data.fields["name"],
        data.fields["sys"].fields["country"],
        temp,
        main.fields["feels_like"],
        main.fields["humidity"],
        Title(weather.fields["description"].s),
        data.fields["wind"].fields["speed"]))
  }

  // ---------------------------------------------------------------------
  // main
  // ---------------------------------------------------------------------

  /** The inputs that end the session, compared after lower-casing. */
  const Sentinels: seq<string> := ["quit", "exit", "q"]

  /** What `main` does with one input line. */
  datatype Command = Quit | Reprompt | Lookup(city: string)

  /** The decision for one line: it is trimmed, a sentinel in any case ends
      the session, an empty line asks again, and anything else is looked up
      as trimmed. */
  function ReadCommand(line: string): (c: Command)
    ensures c == Quit <==> Lower(Trim(line)) in Sentinels
    ensures c == Reprompt <==> Trim(line) == ""
    ensures c.Lookup? ==> c.city == Trim(line) && c.city != ""
  {
    var city := Trim(line);
    if Lower(city) in Sentinels then Quit
    else if city == "" then Reprompt
    else Lookup(city)
  }

  /** A string that neither starts nor ends with whitespace is its own
      trimmed form. */
  lemma TrimUnpadded(s: string)
    requires |s| > 0 && s[0] !in Whitespace && s[|s| - 1] !in Whitespace
    ensures Trim(s) == s
  {
    assert StripsTo(s, Whitespace, 0, |s|);
    StripUnique(s, Whitespace, 0, |s|);
  }

  /** The sentinels are recognised whatever their case. */
  lemma SentinelsIgnoreCase()
    ensures ReadCommand("Exit") == Quit
    ensures ReadCommand("QUIT") == Quit
  {
    ExitAnyCase();
    QuitAnyCase();
  }

  lemma ExitAnyCase()
    ensures ReadCommand("Exit") == Quit
  {
    var exit := "Exit";
    TrimUnpadded(exit);
    var low := Lower(exit);
    assert low[0] == 'e' && low[1] == 'x' && low[2] == 'i' && low[3] == 't';
    assert low == Sentinels[1];
  }

  lemma QuitAnyCase()
    ensures ReadCommand("QUIT") == Quit
  {
    var quit := "QUIT";
    TrimUnpadded(quit);
    var low := Lower(quit);
    assert low[0] == 'q' && low[1] == 'u' && low[2] == 'i' && low[3] == 't';
    assert low == Sentinels[0];
  }

  /** Whitespace around a line does not change what it asks for. */
  lemma SurroundingWhitespaceIgnored(before: string, line: string, after: string)
    requires forall k :: 0 <= k < |before| ==> before[k] in Whitespace
    requires forall k :: 0 <= k < |after| ==> after[k] in Whitespace
    ensures ReadCommand(before + line + after) == ReadCommand(line)
  {
    StripIgnoresPadding(before, line, after, Whitespace);
  }

  /** One step of the session as the user sees it. */
  datatype Event =
    | MissingKey
    | Goodbye
    | Reprompted
    | Looked(city: string, request: Request, answer: Answer, shown: Option<Report>)
    | Crashed(city: string, request: Request)
    | InputExhausted
  {
    /** The session ends with this event: the key was missing, the user quit,
        `display_weather` raised, or `input()` hit the end of input. */
    predicate Terminal() {
      MissingKey? || Goodbye? || Crashed? || InputExhausted?
    }
  }

  /** What `main` does with one line: a sentinel says goodbye, an empty line
      re-prompts without a request, and anything else sends one request for
      the quote-stripped trimmed line; an answer that is truthy data is
      displayed, and the session crashes when it lacks a field the display
      reads. */
  function Step(key: string, line: string, fetch: Request -> Response): (event: Event)
    ensures event == Goodbye <==> ReadCommand(line) == Quit
    ensures event == Reprompted <==> ReadCommand(line) == Reprompt
    ensures event.Looked? || event.Crashed? <==> ReadCommand(line).Lookup?
    ensures event.Looked? || event.Crashed? ==>
      && event.city == Trim(line)
      && event.request == RequestFor(key, StripQuotes(Trim(line)))
    ensures event.Looked? ==> event.answer == GetWeather(key, Trim(line), fetch)
    ensures event.Looked? ==> (event.shown.Some? <==> event.answer.Data? && Truthy(event.answer.json))
    ensures event.Crashed? <==>
      && ReadCommand(line).Lookup?
      && var answer := GetWeather(key, Trim(line), fetch);
      answer.Data? && Truthy(answer.json) && !HasDisplayFields(answer.json)
    ensures event.Looked? && event.answer.Data? ==>
      && (Truthy(event.answer.json) ==> HasDisplayFields(event.answer.json))
      && event.shown == Display(event.answer.json)
    ensures !event.MissingKey? && !event.InputExhausted?
  {
    match ReadCommand(line)
    case Quit => Goodbye
    case Reprompt => Reprompted
    case Lookup(city) =>
      var request := RequestFor(key, StripQuotes(city));
      var answer := GetWeather(key, city, fetch);
      if answer.Data? && Truthy(answer.json) && !HasDisplayFields(answer.json) then
        Crashed(city, request)
      else
        var shown := if answer.Data? then Display(answer.json) else None;
        Looked(city, request, answer, shown)
  }

  /** One line read by `input()`, with the provider as it answers while
      that line is looked up: each lookup sends its own request, and the
      provider may answer the same request differently on different lines. */
  datatype Input = Input(line: string, fetch: Request -> Response)

  /** The `while True` loop of `main`, for any per-input decision `step`:
      each input gives one event, in order, and the loop stops after the
      first terminal event or, when the input runs out, with
      `InputExhausted`. */
  function Session<X>(inputs: seq<X>, step: X -> Event): (events: seq<Event>)
    ensures 1 <= |events| <= |inputs| + 1
    ensures events[|events| - 1].Terminal()
    ensures forall i :: 0 <= i < |events| - 1 ==>
      events[i] == step(inputs[i]) && !events[i].Terminal()
    ensures |events| <= |inputs| ==> events[|events| - 1] == step(inputs[|events| - 1])
    ensures |events| == |inputs| + 1 ==> events[|events| - 1] == InputExhausted
    decreases |inputs|
  {
    if |inputs| == 0 then [InputExhausted]
    else
      var event := step(inputs[0]);
      if event.Terminal() then [event]
      else [event] + Session(inputs[1..], step)
  }

  /** The per-line decision of `main` with the key the app was built with. */
  function StepWith(key: string): Input -> Event {
    (input: Input) => Step(key, input.line, input.fetch)
  }

  /** Every event of a session other than `InputExhausted` is the decision
      for the input at its own position. */
  lemma SessionEventAt<X>(inputs: seq<X>, step: X -> Event, i: nat)
    requires i < |Session(inputs, step)|
    requires Session(inputs, step)[i] != InputExhausted
    ensures i < |inputs| && Session(inputs, step)[i] == step(inputs[i])
  {
  }

  /** An event the per-input decision never gives appears in a session only
      if it is `InputExhausted`. */
  lemma SessionAvoids<X>(inputs: seq<X>, step: X -> Event, e: Event)
    requires e != InputExhausted
    requires forall x :: step(x) != e
    ensures e !in Session(inputs, step)
  {
    var events := Session(inputs, step);
    forall i | 0 <= i < |events|
      ensures events[i] != e
    {
      if events[i] != InputExhausted {
        SessionEventAt(inputs, step, i);
      }
    }
  }

  /** `main`: without a key the session ends before reading any line or
      sending any request. */
  function Run(key: Option<string>, inputs: seq<Input>): (events: seq<Event>)
    ensures key.None? || key.value == "" ==> events == [MissingKey]
    ensures key.Some? && key.value != "" ==> MissingKey !in events
    ensures key.Some? && key.value != "" ==> events == Session(inputs, StepWith(key.value))
  {
    if key.None? || key.value == "" then [MissingKey]
    else
      var step := StepWith(key.value);
      assert forall x :: step(x) != MissingKey by {
        forall x
          ensures step(x) != MissingKey
        {
          assert step(x) == Step(key.value, x.line, x.fetch);
        }
      }
      SessionAvoids(inputs, step, MissingKey);
      Session(inputs, step)
  }

  /** No line after the first sentinel is read: the session is over by then. */
  lemma QuitStopsReading(key: string, inputs: seq<Input>, k: nat)
    requires k < |inputs| && ReadCommand(inputs[k].line) == Quit
    ensures |Session(inputs, StepWith(key))| <= k + 1
  {
    assert StepWith(key)(inputs[k]) == Goodbye;
  }

  /** The session ends with `InputExhausted` exactly when every line was
      read without ending it. */
  lemma InputRunsOutOnlyAtEnd(key: string, inputs: seq<Input>)
    ensures var events := Session(inputs, StepWith(key));
      events[|events| - 1] == InputExhausted <==> |events| == |inputs| + 1
  {
    var events := Session(inputs, StepWith(key));
    if |events| <= |inputs| {
      var x := inputs[|events| - 1];
      assert events[|events| - 1] == Step(key, x.line, x.fetch);
    }
  }

  /** Every lookup of the session was made for a line that is neither blank
      nor a sentinel, with the line trimmed and then quote-stripped, and its
      answer is what `get_weather` gives for the trimmed line from the
      provider as it answered then. */
  lemma LookupsUseTrimmedLines(key: string, inputs: seq<Input>)
    ensures var events := Session(inputs, StepWith(key));
      forall i | 0 <= i < |events| && (events[i].Looked? || events[i].Crashed?) ::
        && i < |inputs|
        && Trim(inputs[i].line) != "" && Lower(Trim(inputs[i].line)) !in Sentinels
        && events[i].city == Trim(inputs[i].line)
        && events[i].request == RequestFor(key, StripQuotes(Trim(inputs[i].line)))
        && (events[i].Looked? ==>
              events[i].answer == GetWeather(key, Trim(inputs[i].line), inputs[i].fetch))
  {
    var events := Session(inputs, StepWith(key));
    forall i | 0 <= i < |events| && (events[i].Looked? || events[i].Crashed?)
      ensures i < |inputs| && events[i] == Step(key, inputs[i].line, inputs[i].fetch)
    {
      SessionEventAt(inputs, StepWith(key), i);
      assert StepWith(key)(inputs[i]) == Step(key, inputs[i].line, inputs[i].fetch);
    }
  }

  /** A blank line that is read only re-prompts: it sends no request and the
      session goes on to the next line. */
  lemma BlankLineReprompts(key: string, inputs: seq<Input>)
    ensures var events := Session(inputs, StepWith(key));
      forall i | 0 <= i < |events| && i < |inputs| && Trim(inputs[i].line) == "" ::
        events[i] == Reprompted && i + 1 < |events|
  {
    var events := Session(inputs, StepWith(key));
    forall i | 0 <= i < |events| && i < |inputs| && Trim(inputs[i].line) == ""
      ensures events[i] == Reprompted && i + 1 < |events|
    {
      assert StepWith(key)(inputs[i]) == Reprompted;
    }
  }
}
