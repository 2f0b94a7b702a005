# Beginner weather lookup, modelled in Dafny

The repository is a small weather lookup with two front-ends over one
provider, OpenWeatherMap's current-weather endpoint:

- `app.py` is a web front-end. Its `/weather` handler trims the posted city and
  refuses an empty one. `WeatherApp.get_weather` then checks that an API key is
  configured, strips surrounding quotes from the city, and sends one request with
  metric units. It turns the status code into an error dict, or reshapes a 200
  body into an eight-field summary with rounded temperatures and a title-cased
  description. Every exception becomes an error dict.
- `weather.py` is a command-line front-end. Its `get_weather` makes the same
  request and status dispatch, but returns the decoded body or `None`.
  `display_weather` reads the shown fields and picks one of five temperature
  emoji. `main` reads lines until a quit sentinel (`quit`, `exit`, `q` in any
  case) and re-prompts on blank lines.

The model has seven modules:

- `Outcomes` holds `Option` and `Result`.
- `Text` holds Python's `str.strip` (with and without a character set),
  `str.title`, `str.lower` and `str(int)` over ASCII.
- `Numeric` holds `round()` on reals, half to even.
- `JsonTree` holds the decoded body as a `Json` tree. It also holds the Python
  operations applied to it (`x['k']`, `x[0]`, `round`, `.title()`), each giving
  a value or the exception Python raises, with that exception's text.
- `Provider` holds the request, the response and the shared failure messages.
  `CauseOf` classifies a response and `Diagnose` reads a message back into its
  cause. `DiagnoseInvertsMessages` proves that every failure message reads
  back as the cause of the response that produced it.
- `WebApp` models `app.py`.
- `Cli` models `weather.py`.

The network is a parameter `fetch: Request -> Response`. So "exactly one
request, for the quote-stripped city" and "no request without a key" are
statements about the model. In the command-line session each input line comes
with its own `fetch`, the provider as it answers while that line is looked up.
So the same city may fail on one line and succeed on a later one.

The web handler checks emptiness after trimming whitespace only
(`app.py:68-69`), and quotes are stripped later (`app.py:22`). So a city made
only of quotes, such as `""`, reaches the provider with an empty query; see
`WebApp.QuotesOnlyReachProvider`. The handler's empty-city check also comes
before the key check in `get_weather`.

## Model

| member | source | states |
|---|---|---|
| Text.Strip | app.py:22 | The result is a contiguous slice of the input, with no character of the set at either end, and nothing outside it but set characters. |
| Text.StripUnique | app.py:22 | Any slice with those properties is the one `Strip` returns, so stripping is determined by the input and the set alone. |
| Text.StripIdempotent | weather.py:119 | Stripping an already stripped string changes nothing. |
| Text.StripIgnoresPadding | weather.py:40 | Padding a string on both sides with characters of the set does not change what it strips to. |
| Text.StripAllEmpty | app.py:68-69 | A string made only of set characters strips to the empty string. |
| Text.Title | app.py:49 | Length is kept. Letters that start a word are upper-cased and every other letter is lower-cased. Non-letters are unchanged. |
| Text.TitleIdempotent | weather.py:81 | Title-casing a title-cased string changes nothing. |
| Text.Lower | weather.py:121 | Length is kept and each character is its lower-case form. |
| Text.DigitsRoundTrip | app.py:38 | Reading back the digits written for a natural number gives that number. |
| Text.Decimal | app.py:38 | `str(code)` is a minus sign exactly for a negative code, followed by digits with no leading zero, so `-0` and `0404` never appear. It contains no space. |
| Text.DecimalRoundTrip | app.py:38 | Reading back the decimal form of any integer gives that integer, so the status code in an API error message is recoverable. |
| Numeric.RoundHalfEven | app.py:46-47 | The result is within one half of the input, and a tie goes to the even neighbour. |
| Numeric.RoundNearest | app.py:46-47 | An integer strictly closer than one half is the result. |
| Numeric.RoundMonotone | app.py:46-47 | Rounding preserves order. |
| Numeric.RoundExample | app.py:46 | 16.6 rounds to 17, 2.5 to 2, 3.5 to 4 and -0.5 to 0. |
| JsonTree.Member | app.py:44-51 | `x[key]` succeeds exactly when `x` is a dict holding the key, and yields its value. A missing key raises `KeyError` whose text is the key in single quotes, which is its repr for a key without quotes, backslashes or unprintable characters, as every key read here. |
| JsonTree.First | app.py:49 | On a list, `x[0]` succeeds exactly when the list is non-empty, and yields its first item. Only lists and strings succeed. |
| JsonTree.Round | app.py:46-47 | `round(x)` succeeds exactly on numbers, lands within one half of the value, and returns an integer unchanged. |
| JsonTree.Truthy | weather.py:72-73 | A decoded value is falsy exactly when it is `None`, `False`, a zero, or an empty string, list or dict. |
| JsonTree.TitleOf | app.py:49 | `.title()` succeeds exactly on strings and gives the title-casing of that string. A corollary, through `Text.TitleIdempotent`, is that the result keeps the length and is a title-case fixed point. |
| Provider.CauseOf | app.py:33-38 | A 401 is a bad key and a 404 an unknown city. Any other status but 200 is an API error carrying that code. A connection failure is a network error. Any other request exception, or a failure while reading a 200, is an exception. |
| Provider.DiagnoseApiError | app.py:37-38 | The other-status message reads back as that status code, whatever the reason phrase. |
| Provider.DiagnoseNotFound | app.py:35-36 | The 404 message reads back as the city it names. |
| Provider.DiagnoseFetchError | app.py:56-57 | An exception message reads back as an exception, whatever the exception's text. |
| Provider.DiagnoseInvertsMessages | app.py:33-57 | Every branch's failure message reads back as the cause `CauseOf` assigns to the response, so no two branches' messages coincide. |
| WebApp.Reshape | app.py:40-52 | The summary is built exactly when every read field is present with a usable type. It then copies the passthrough fields, rounds both temperatures to within one half, and title-cases the description. |
| WebApp.Attempt | app.py:30-57 | Weather is returned exactly for a 200 with a decodable body holding every field, and it is the reshaped body. Every error message reads back as the response's cause. |
| WebApp.GetWeather | app.py:16-57 | Without a key, the reply is the configuration error. With a key, weather comes exactly when the one request for the quote-stripped city gets a decodable 200 holding every summary field, and it is that body reshaped. With a key, every error reads back as the cause of the provider's response. |
| WebApp.MissingKeyComesFirst | app.py:18-19 | Without a key, the reply is the configuration error, whatever the city and whatever the provider would say. |
| WebApp.OneRequestForStrippedCity | app.py:21-31 | With a key, the reply depends only on the provider's answer to one metric request for the quote-stripped city. |
| WebApp.DispatchOrder | app.py:33-57 | 401, 404 and other non-200 statuses give their literal messages, the 404 one naming the city in double quotes. A connection failure gives the network message. Any other request failure, or a 200 whose body does not decode, gives the generic prefix followed by the exception's text. Only a 200 can give weather. |
| WebApp.MissingFieldIsReported | app.py:43-57 | A 200 body missing a field gives the generic error with the exception's text, e.g. `'name'` for a missing `name`. |
| WebApp.LightRainIsTitleCased | app.py:49 | "light rain" is shown as "Light Rain". |
| WebApp.AsDict | app.py:43-52 | A reply is a dict with exactly the key `error`, or exactly the eight summary keys with their values. |
| WebApp.SuccessCopiesFields | app.py:43-52 | A successful reply's passthrough keys hold exactly the provider's values, and its description is the title-cased one. |
| WebApp.HandleWeather | app.py:66-73 | A city that is absent, or blank after trimming, is refused with the empty-city message. Any other city is answered by `get_weather` on the trimmed city. |
| WebApp.BlankCityIsRefused | app.py:68-70 | A blank city is refused whatever the key and the provider, so the empty check precedes the key check. |
| WebApp.ReplyShape | app.py:66-73 | Every reply of the handler has one of the two dict shapes. |
| WebApp.QuotesOnlyReachProvider | app.py:68-72 | Every non-empty city made only of quote characters passes the empty check, and the provider is asked about an empty name. |
| WebApp.QuotedCityLooksUpBareCity | app.py:22 | A city wrapped in any mix of single and double quotes gets the same reply as the bare city. |
| Cli.Attempt | weather.py:48-68 | Data is returned exactly for a 200 whose body decodes, and it is that body unchanged. Every failure message reads back as the response's cause. |
| Cli.GetWeather | weather.py:37-68 | Data is returned exactly when the one request for the quote-stripped city gets a 200 whose body decodes, and it is that body. Every reported failure reads back as that response's cause. |
| Cli.DispatchOrder | weather.py:51-68 | 401, 404 and other non-200 statuses give their literal messages, the 404 one naming the city in single quotes. A connection failure gives the network message. Any other request exception, a 200 whose body does not decode included, gives the generic prefix followed by the exception's text. |
| Cli.OneRequestForStrippedCity | weather.py:37-49 | The answer depends only on the provider's answer to one request for the quote-stripped city. |
| Cli.ReachedMonotone | weather.py:85-94 | A higher temperature reaches at least as many thresholds. |
| Cli.Bucket | weather.py:84-94 | The emoji index is below five, and it counts the thresholds 0, 10, 20 and 30 that the temperature has reached. |
| Cli.BucketMonotone | weather.py:85-94 | A warmer temperature never gets a colder emoji. |
| Cli.BucketBoundaries | weather.py:85-94 | Each boundary temperature falls in the warmer bucket. |
| Cli.Display | weather.py:70-94 | Falsy data shows nothing. Truthy data shows its fields as received, the description title-cased and the emoji bucket counted from the temperature. |
| Cli.ReadCommand | weather.py:119-127 | A line quits exactly when its trimmed, lower-cased form is a sentinel. It re-prompts exactly when it is blank after trimming. Otherwise the trimmed, non-empty line is looked up. |
| Cli.SentinelsIgnoreCase | weather.py:121 | "Exit" and "QUIT" end the session. |
| Cli.SurroundingWhitespaceIgnored | weather.py:119 | Whitespace around a line does not change the decision. |
| Cli.Step | weather.py:118-133 | Goodbye comes exactly for a sentinel and a re-prompt exactly for a blank line. A lookup sends the request for the quote-stripped trimmed line and gets `get_weather`'s answer. The session crashes exactly when that answer is truthy data lacking a displayed field. Otherwise data is shown exactly as `display_weather` shows it, and only when it is truthy. |
| Cli.Session | weather.py:118-133 | Each input read gives the decision for that input, in order. The session stops at the first terminal event, or ends with input exhausted after the last input. |
| Cli.Run | weather.py:105-133 | Without a key the session ends before reading a line. With one, the events are exactly the session of per-line decisions over the input, and the missing-key event never occurs. |
| Cli.QuitStopsReading | weather.py:121-123 | No line after the first sentinel is read. |
| Cli.InputRunsOutOnlyAtEnd | weather.py:118-119 | The session ends with input exhausted exactly when every line was read without ending it. |
| Cli.LookupsUseTrimmedLines | weather.py:119-130 | Every lookup in a session is for a non-blank, non-sentinel line at its own position. It uses the trimmed line, sends the request for its quote-stripped form, and its answer comes from the provider as it answered for that line. |
| Cli.BlankLineReprompts | weather.py:125-127 | A blank line re-prompts and the session reads on. |

## Left out

- `WeatherApp.test_api_key` (`weather.py:19-35`) only prints diagnostics about a trial request. It changes no state and no later result.
- Flask routing, `index`, template rendering, `jsonify` serialisation and `app.run` are framework plumbing. `AsDict` gives the dict that is serialised.
- `load_dotenv` and `os.getenv` are left out. The key is a parameter, `Option<string>` where it may be unset.
- Printing is left out. Each CLI message is modelled as its text without the leading emoji, and the emoji of `display_weather` as an index from coldest to hottest.
- Floating point is modelled with exact reals: NaN, infinities and the binary representation of decimal fractions are not. `round()` is half to even on the exact value.
- Strings are ASCII for case and whitespace. Unicode case mappings and Unicode whitespace in `str.strip()`, `str.lower()` and `str.title()` are not modelled.
- The posted `city` is assumed to be a string or absent. A request body that is not a JSON object, or a non-string `city`, raises inside Flask and is not modelled.
- `response.reason` is assumed to be a string. A missing reason phrase, which prints as `None`, is not modelled.
- A decoding failure of `response.json()` is a request exception, as in `requests` 2.27 and later. Exception texts follow Python 3.11 wording, and other versions word `TypeError` messages differently.
- Cli.Display: requires truthy data to carry every displayed field. The source raises an uncaught exception otherwise; `Cli.Step` models that case as the terminal `Crashed` event instead of calling `Display`.
