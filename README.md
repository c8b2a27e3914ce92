# Fluoride dashboard feedback core, in Dafny

This project models the decision logic of the water-fluoridation dashboard in
`src/app.py`:

- how `AIFeedbackGenerator.generate_feedback` builds its prompt;
- how it sends the prompt to the chat-completion endpoint with a fixed number
  of attempts;
- how the Dash callback `update_charts` decides what to show and when to ask
  the generator.

Modules:

- `Wrappers`: `Option`, standing for Python's `None`.
- `Strings`: the two Python string operations the code uses. One is
  `str.strip()` with no argument, over Python's full `isspace` set. The other
  is `str(int)`, the text an f-string prints for `{year}`.
- `Prompt`: the guideline sentence (`additional_info`) and the prompt template.
  The template is a list of pieces joined left to right. The two fluoride values
  come in as strings that are already formatted.
- `Client`: the generator. The network is an oracle `respond: nat -> Outcome`,
  and `respond(i)` is what the POST of attempt `i` returns:
  - `Answered(status, content)`: an HTTP answer. `content` is
    `choices[0].message.content`, or `None` when the body has no such string.
  - `RequestFailed`: a request error.
  - `TimedOut`: a timeout.
  - `PostRaised`: any other exception out of building the client or sending
    the request. Examples are an invalid URL, or a `Bearer` header that is not
    ASCII. No `except` clause catches it.

  `FeedbackGenerator.GenerateFeedback` copies the source's loop, early
  returns included. It is proved against the function `Feedback`, which
  gives a `Run` (the number of POSTs and the outcome that stopped the loop).
  What is proved about `Feedback` and `ReplyOf` is what the source promises.
- `Dashboard`: `update_charts` as a function of the dataset rows, the two lookup
  tables (passed in as maps), the selection and the oracle. Its result is the
  table, the feedback text and the POSTs made.

Exceptions that escape:

- A 2xx answer whose body has no `choices[0].message.content` string raises
  from `response.json()[...]` or `.strip()`, and no `except` clause catches
  it. The model returns `Raised`, and `update_charts` then produces no view
  (`Update.view == None`).
- An exception from `httpx.Client(...)` or `client.post(...)` that is not an
  `httpx.RequestError` (outcome `PostRaised`) escapes on the attempt it
  happens in, with no retry. The model returns `Raised` for it as well.
- `state_abbreviations[selected_state]` raises `KeyError` for an unknown state
  code. The model shows that case as `Update(None, [])`.

The guideline table is a parameter, so states with and without a URL are both
covered.

## Model

| member | source | states |
|---|---|---|
| `Strings.Strip` | src/app.py:151 | The stripped completion never starts or ends with a whitespace character. |
| `Strings.StripCutsSpace` | src/app.py:151 | `strip` cuts only whitespace, and only from the two ends: the result is a contiguous slice of the input, and everything before and after it is whitespace. |
| `Strings.StripPadded` | src/app.py:151 | Padding a string that has no whitespace at its ends with whitespace on either side, then stripping, gives that string back. Together with the two members above, this pins `strip` down completely. |
| `Strings.StripFixesBare` | src/app.py:151 | `strip` changes nothing exactly when the string has no whitespace at either end (both directions). |
| `Strings.StripIdempotent` | src/app.py:151 | Stripping twice gives the same result as stripping once. |
| `Strings.IntToString` | src/app.py:132 | The text `str(year)` prints is not empty. It starts with `-` exactly when the year is negative, and every other character is a decimal digit. That it names the year is stated by `NatToStringValue` and `IntToStringInjective`. |
| `Strings.NatToStringValue` | src/app.py:132 | The decimal text an f-string prints for a non-negative `int` reads back as that number. |
| `Strings.IntToStringInjective` | src/app.py:132 | Two years print as the same text exactly when they are the same year, so the prompt and the "No data" line name the selected year. |
| `Prompt.AdditionalInfo` | src/app.py:122-129 | A state with a guideline link gets a sentence that opens with "For specific state guidelines, refer to: " and carries the link right after it. The both-ways statement, including the CDC sentence, is `AdditionalInfoCitesGuideline`. |
| `Prompt.AdditionalInfoCitesGuideline` | src/app.py:122-129 | When the state's entry is present and non-empty, the closing sentence is "For specific state guidelines, refer to: {link}." and reading it back gives that link. Otherwise it is exactly the CDC WFRS / 'My Water Fluoride' sentence. This holds in both directions, including a missing entry and an empty-string link. |
| `Prompt.PromptParts` | src/app.py:131-135 | The template has twelve pieces. It opens with the fixed opening and closes with the guideline sentence. Where each fact sits is stated by `PromptLayout`. |
| `Prompt.FeedbackPrompt` | src/app.py:131-135 | The prompt starts with the fixed opening and ends with the guideline sentence. The placement of every other piece is stated by `PromptLayout`. |
| `Prompt.PromptLayout` | src/app.py:131-135 | The prompt starts with the fixed opening and ends with the closing sentence. Every template piece and each fact (CWS name, state name, year, max, average, closing sentence) sits unchanged at its offset, in template order. |
| `Prompt.ConcatPart` | src/app.py:131-135 | One piece of the joined template sits unchanged at its offset, and the next piece starts right after it. |
| `Client.Feedback` | src/app.py:146-164 | One call makes at most `max(retries, 0)` POSTs. Every POST before the last one got an outcome that retries. A call that stops early stops on the outcome of its last POST, and that outcome does not retry. The exhaustion case is stated by `ExhaustedIffAllRetried`. |
| `Client.Attempts` | src/app.py:146-164 | The loop makes at most `retries` POSTs. Every POST but the last was answered with an outcome that retries. The loop stops either because attempts ran out (and then it made exactly `max(retries, 0)` POSTs) or on the outcome of its last POST, which does not retry. |
| `Client.ReplyOf` | src/app.py:147-164 | Running out of attempts gives "Feedback generation failed after multiple attempts.". A 401 gives "Error: Unauthorized access. Please check your API key.". An exception from the POST itself escapes (`Raised`). A 2xx answer returns a string exactly when its body has content. That string is the content passed through `strip`, so it has no whitespace at its ends. |
| `Client.FirstStopEnds` | src/app.py:146-156 | The first attempt whose outcome does not retry ends the call after exactly that many POSTs, and its outcome decides the reply. |
| `Client.PostRaisedEscapes` | src/app.py:147-149 | An exception from building the client or sending the request on the first attempt escapes after exactly one POST, with no retry. |
| `Client.UnauthorizedOnFirstAttempt` | src/app.py:153-156 | A 401 on the first attempt returns the fixed unauthorized message after exactly one POST. |
| `Client.SuccessReturnsStrippedContent` | src/app.py:150-152 | A 2xx answer with content, after `k` retried attempts, returns the stripped content after exactly `k + 1` POSTs, and the result has no whitespace at its ends. |
| `Client.RetryUsesOneAttempt` | src/app.py:157-162 | A non-2xx status other than 401, a request error or a timeout on the first attempt costs one POST. The rest of the call equals a call with one attempt fewer over the later outcomes. |
| `Client.ShiftAttempts` | src/app.py:146-162 | Starting the loop one attempt later is the same as running it with one attempt fewer over the outcomes shifted by one, plus one POST. |
| `Client.ExhaustedWhenAllRetried` | src/app.py:146-164 | From any attempt on, the loop runs out of attempts exactly when every remaining attempt's outcome retries (both directions). |
| `Client.ExhaustedIffAllRetried` | src/app.py:146-164 | The fixed failure string comes back from running out of attempts exactly when all `retries` outcomes retry. The call then made exactly `max(retries, 0)` POSTs, which is none when `retries <= 0`, and no call ever makes more. |
| `Client.LaterOutcomesUnused` | src/app.py:146-152 | Outcomes after the call's last POST do not affect it: two oracles that agree on the attempts made give the same run. |
| `Client.TimeoutThenHello` | src/app.py:146-162 | A timeout followed by a 200 with content " Hello. " returns "Hello." after exactly two POSTs. |
| `Client.PayloadFor` | src/app.py:137-144 | The body asks `gpt-4` for at most 350 tokens. It holds two messages: the system message ("You are an assistant for public health data summaries.") first, and the prompt last as the user's message. |
| `Client.FeedbackGenerator.constructor` | src/app.py:111-119 | The generator keeps the key, endpoint, timeout and retry count it is given. Its headers are the JSON content type and `Bearer {api_key}`. |
| `Client.FeedbackGenerator.PostFor` | src/app.py:137-149 | Every attempt's POST goes to the generator's endpoint with its headers and timeout. Its last message is the assembled prompt, and the prompt ends with the state's guideline sentence. |
| `Client.FeedbackGenerator.GenerateFeedback` | src/app.py:121-164 | The method's reply is the one `ReplyOf(Feedback(...))` gives. It sends one POST per attempt made, each to the endpoint with the headers, the timeout and the gpt-4 payload carrying the assembled prompt. |
| `Dashboard.Filter` | src/app.py:239-240 | The rows a mask selects are exactly the rows that pass it, and there are no more of them than there were rows. |
| `Dashboard.FilterAppend` | src/app.py:239-240 | Selection distributes over concatenation, so selected rows keep their dataset order. |
| `Dashboard.NothingKept` | src/app.py:250-251 | A selection where no row passes is empty. |
| `Dashboard.UpdateCharts` | src/app.py:234-260 | The callback makes at most `max(retries, 0)` POSTs. Every row it shows belongs to the dataset and to the selected state, which is truthy. Each branch is stated by one of the lemmas below. |
| `Dashboard.UnselectedShowsPlaceholder` | src/app.py:235-236 | A falsy year (unset or 0) or a falsy state (unset or "") gives an empty table and "Select a year and state to view data.", with no POST. |
| `Dashboard.UnknownStateRaises` | src/app.py:238 | With a year and a state chosen, a state code missing from the abbreviation table raises `KeyError`: no view and no POST. |
| `Dashboard.TableHoldsStateRows` | src/app.py:238-248 | With a year and a known state chosen, the shown table holds exactly the selected state's rows across all years, in dataset order. |
| `Dashboard.NoRowsForYear` | src/app.py:250-251 | When no row of the state has the selected year, the feedback is "No data for {state name} in {year}." next to the state's rows, with no POST. |
| `Dashboard.RowsForYearAskGenerator` | src/app.py:250-258 | When the state has rows for the year, the generator gets the full state name, the year, the maximum over the year's rows, the average over all of the state's rows and the first matching row's CWS name. The callback makes the generator's POSTs (at most `retries`) and shows its string unchanged. |
| `Dashboard.FirstRowForYear` | src/app.py:239-255 | The CWS named in the prompt comes from the dataset's first row of the state for the year. If no earlier row matches both, then that row heads the selection. |
| `Dashboard.PostsOnlyWithRowsForYear` | src/app.py:234-260 | The callback POSTs only if a year and a known state are chosen and the dataset has a row of that state for that year. |

## Left out

- Networking: the requests httpx makes, the per-attempt client, `verify=False`
  (TLS certificate checks turned off) and the timeout's effect
  (src/app.py:148-149). The oracle `respond` stands for them. A `Post` only
  records what each request carries.
- JSON: serialising the payload and parsing the response
  (src/app.py:137-144, 151). `Payload` is the body before serialisation. The
  content is taken as already extracted, or as `None` when parsing or
  indexing would raise.
- The status rule follows current httpx, where `raise_for_status` raises for
  every status outside 2xx. Older httpx releases raised only for 4xx and 5xx,
  so a 3xx answer would have reached `response.json()` instead of being
  retried.
- `PostRaised` counts the attempt's POST even when the exception comes before
  anything is sent (an invalid URL, say). Which exceptions those are is up to
  httpx and is not modelled.
- `httpx.TimeoutException` is a subclass of `httpx.RequestError`, so the
  `except` at src/app.py:161 never runs. Both kinds are retried the same way;
  only the log text differs, and logging is left out.
- Logging (src/app.py:31, 155, 158, 160, 162): it has side effects and no
  effect on results.
- Floating point: the `:.2f` formatting of the two values (src/app.py:133), the
  pandas `max`/`mean` (src/app.py:253-254) and `fillna(0)`
  (src/app.py:50-51). `UpdateCharts` takes the two formatted aggregates as
  functions of the rows they are computed over (`maxText`, `avgText`).
- Start-up: loading the CSV, dotenv, the configuration dictionary (retries 3,
  timeout 30.0, the endpoint URL), the API-key check (src/app.py:13-32) and
  the module-level generator (src/app.py:168-173). The generator's settings
  are constructor parameters. `__init__`'s default arguments have no
  counterpart.
- The contents of `state_abbreviations` and `state_guidelines`
  (src/app.py:35-47, 54-106): the model takes them as abstract maps.
- UI: the Dash layout, the dropdown options, the choropleth figure that is
  `update_charts`'s first output, table rendering and `app.run`
  (src/app.py:176-226, 242-246, 262-263).
- Strings are sequences of Unicode code points. Only Python's `isspace` set is
  modelled; there is no normalisation or encoding.
- Dropdown values are taken to be an `int` year and a `str` state code. Other
  Python types are not modelled.
