# nosylot backend, modelled in Dafny

The nosylot backend is one Flask handler, `POST /api/analyze`. It takes a
question and either a page URL or pasted text. It fetches and cleans the page
or caps the text, asks a Featherless chat-completion model, and returns the
answer or one error with its HTTP status. This project models that handler
and the helpers it calls. Everything is written as pure functions and lemmas,
because the handler is a chain of early returns with no state of its own.

Files and modules:

- `strings.dfy` (`Strings`) holds the string helpers:
  - whitespace as Python's `str.isspace()` defines it;
  - `strip`, `lstrip` and `rstrip`;
  - the `re.sub(r"\s+", " ", ...)` collapse and the strip that end `extract_visible_text`;
  - the 4000-character cap;
  - the `^https?://` test of `is_url` under `re.IGNORECASE`.
- `completion.dfy` (`Completion`) models `ask_ai`:
  - the key gate;
  - the exact request it posts (endpoint, bearer header, model, both messages, `max_tokens`, `temperature`);
  - how the answer is read out of the JSON reply.
- `app.dfy` (`App`) models `analyze`:
  - the field checks (`Validate`);
  - obtaining the content (`Obtain`);
  - asking the model (`Answering`);
  - the whole branch table over the three stripped fields (`Handle`) and over the request body (`Analyze`).
- `analyze_properties.dfy` (`AnalyzeProperties`) holds the lemmas that hold across all branches.

The outside world enters as plain values:

- the configured key, as `ApiKey`;
- how the page fetch would end, as `FetchOutcome`. A fetched page is given as the text BeautifulSoup extracts from it;
- how the POST would end, as `PostOutcome`. This is the parsed reply, or a `RequestException` with its text.

The handler's result is an `Exchange`. It holds the response, plus the list of outbound requests made, in order (`Get(url)`, `Post(request)`). Statements such as "the fetch is never attempted" or "nothing is posted" are then statements about that list.

In these cases the model follows what the code in `app.py` does, which goes beyond its own comments and messages:

- The key gate `not API_KEY or API_KEY == "PUT_YOUR_KEY_HERE"` also refuses an empty key, because the empty string is falsy. Its message still says only that the key "is not set".
- Under `re.IGNORECASE`, the `s` of the pattern also matches U+017F LATIN SMALL LETTER LONG S. So `"httpſ://x"` passes `is_url`.
- A reply whose `choices` is an empty list raises `IndexError`. That exception is neither a `ValueError` nor a `RequestException`, so it escapes `analyze`. The model returns `Uncaught` for it and makes no claim about the error page Flask then sends.
- Whitespace is Python's: the characters for which `str.isspace()` holds. The module `Strings` lists them. `strip()` removes exactly these, and `\s` matches exactly these.

## Model

| member | source | states |
|---|---|---|
| Strings.WhitespaceSet | app.py:21 | `IsSpace` is the set of characters for which `str.isspace()` holds, which `strip()` removes and `\s` matches: among ASCII exactly tab, line feed, vertical tab, form feed, carriage return, U+001C to U+001F and the space; never a letter or a digit, nothing above U+3000 |
| Strings.TrimStart | app.py:21 | the result keeps the last character, starts with a non-whitespace character (or is empty), and everything dropped from the front is whitespace |
| Strings.TrimEnd | app.py:21 | the result keeps the first character, ends with a non-whitespace character (or is empty), and everything dropped from the back is whitespace |
| Strings.TrimStartIsSuffix | app.py:21 | what the left strip keeps is a suffix of its input |
| Strings.TrimEndIsPrefix | app.py:21 | what the right strip keeps is a prefix of its input |
| Strings.Strip | app.py:21 | `strip()` leaves no whitespace at either end, never lengthens, and gives "" exactly when the input is all whitespace |
| Strings.StripIsSlice | app.py:21 | the stripped string is one contiguous slice of the input, and only whitespace lies before and after it |
| Strings.StripParts | app.py:21 | every string is whitespace, then its stripped form, then whitespace |
| Strings.StripSurrounded | app.py:21 | whitespace around a string without edge whitespace is removed, and that string is given back unchanged |
| Strings.StripKeepsNonSpace | app.py:21 | strip removes no non-whitespace character and reorders nothing |
| Strings.StripIdempotent | app.py:21 | stripping twice is the same as stripping once |
| Strings.StripPadded | app.py:87-89 | whitespace added around a field value does not change the stripped field |
| Strings.Collapse | app.py:30 | `re.sub(r"\s+", " ", s)` keeps emptiness and whether each end is whitespace, and leaves only plain spaces as whitespace; `CollapseRun` states what becomes of each inner run |
| Strings.CollapseSpacing | app.py:30 | after the collapse, no two neighbouring characters are both whitespace |
| Strings.CollapseKeepsNonSpace | app.py:30 | the collapse keeps every non-whitespace character, in order |
| Strings.CollapseFixes | app.py:30 | text that has only single plain spaces is left unchanged by the collapse |
| Strings.CollapseRun | app.py:30 | a whitespace run between two words becomes exactly one plain space, and the text on either side is collapsed on its own |
| Strings.Normalise | app.py:30-31 | collapse then strip gives a string with no edge whitespace, no double whitespace and only plain spaces; it is never longer, and "" exactly when the input is all whitespace |
| Strings.NormaliseKeepsNonSpace | app.py:30-31 | normalising keeps every non-whitespace character, in order |
| Strings.NormalFixedPoint | app.py:30-31 | normalising leaves a string unchanged if and only if it is already normal |
| Strings.NormaliseJoins | app.py:30-31 | two normal pieces of text with any whitespace run between them come out joined by exactly one plain space |
| Strings.HelloWorld | app.py:30-31 | "Hello   world" is normalised to "Hello world" |
| Strings.NormaliseIdempotent | app.py:30-31 | normalising twice is normalising once |
| Strings.Cap | app.py:109 | the capped text is a prefix of the input and at most 4000 characters long; it equals the input when the input has at most 4000 characters, and is exactly 4000 characters long otherwise |
| Strings.CapOfNormal | app.py:46 | capping normalised text keeps single plain spaces and a non-whitespace first character |
| Strings.MatchesScheme | app.py:22 | `^https?://` under `re.I`, read letter by letter, holds if and only if the text starts with "http://" or "https://", ignoring case |
| Strings.IsUrl | app.py:20-22 | `is_url(s)` holds if and only if `s.strip()` starts with "http://" or "https://", ignoring case |
| Strings.FtpIsNotUrl | app.py:20-22 | "ftp://example.com" is not a URL |
| Strings.UpperCaseUrl | app.py:20-22 | upper case and surrounding whitespace do not matter: " HTTPS://a\n" is a URL |
| Completion.UserPrompt | app.py:56 | the user message is 18 characters longer than the content and the question together |
| Completion.UserPromptParts | app.py:56 | the user message is "Text:\n", the content, "\n\nQuestion: " and the question, at fixed offsets |
| Completion.UserPromptInjective | app.py:56 | two prompts with contents of the same length are equal only when their contents and their questions are equal |
| Completion.KeyUsable | app.py:50 | a key is usable exactly when it is neither unset, nor the empty string, nor "PUT_YOUR_KEY_HERE" |
| Completion.ChatRequestShape | app.py:52-64 | the POST goes to the chat-completions endpoint with `Bearer ` followed by the key and nothing else; the payload names the model and holds exactly the system instruction then the user prompt, `max_tokens` 500 and `temperature` 0.3 |
| Completion.FirstContent | app.py:68-70 | there is no first content exactly when `choices` is present and empty; a missing `choices`, `message` or `content` reads as ""; otherwise it is `choices[0].message.content` |
| Completion.ReadAnswer | app.py:68-70 | an empty `choices` gives no answer; any other answer is non-empty with no edge whitespace, and is "(No response)" when the content is all whitespace and the stripped content otherwise |
| Completion.BlankContentAnswer | app.py:70 | a whitespace-only content is answered with "(No response)" |
| Completion.MissingChoicesAnswer | app.py:68-70 | a reply without `choices` is answered with "(No response)" |
| Completion.FirstChoiceAnswer | app.py:68-70 | for every reply with choices, only the first choice's content is read: stripped, or "(No response)" when it is all whitespace |
| Completion.MissingMessageAnswer | app.py:69-70 | a first choice without `message` is answered with "(No response)" |
| Completion.MissingContentAnswer | app.py:70 | a message without `content` is answered with "(No response)" |
| Completion.AskAi | app.py:49-70 | an unusable key, and only that, raises the config error with the key message and posts nothing; otherwise exactly one POST goes to the endpoint, with bearer `key` and a system message followed by the user prompt; a failed POST surfaces with its text; an empty `choices` raises `IndexError`; any other reply is answered with what `ReadAnswer` reads from it, which is non-empty and unpadded |
| App.Field | app.py:87-89 | a field read from the body has no edge whitespace, and is "" exactly when it is absent or all whitespace |
| App.ExtractVisibleText | app.py:25-31 | the extracted text is never longer than the parser's text, and is "" exactly when the parser's text is all whitespace (it is `Normalise`, so `Strings.NormaliseJoins` gives the single space between words) |
| App.ExtractedTextIsNormal | app.py:25-31 | the extracted text has no edge whitespace, no double whitespace and only plain spaces, and keeps every non-whitespace character of the parser's text, in order |
| App.GetTextFromUrl | app.py:41-46 | a failed fetch and only a failed fetch is blocked; the page text is at most 4000 characters, and is "" exactly when the parser's text is all whitespace |
| App.PageTextShape | app.py:41-46 | the page text of a fetched page is a prefix of the full extracted text: all of it when it fits in 4000 characters, exactly its first 4000 characters otherwise; it keeps single plain spaces and a non-whitespace start |
| App.Validate | app.py:87-101 | each of the four 400 rejections happens exactly under its condition, in the handler's order, and so does each of the two acceptances |
| App.Obtain | app.py:99-109 | pasted text is capped and fetches nothing; a url is fetched once, its content is blocked exactly when the fetch fails, and otherwise it is the page text of the fetched page; content is at most 4000 characters |
| App.Answering | app.py:111-119 | empty content is the 422 with no new request; without a usable key it is the 500 with no POST; otherwise one POST of the exact request is appended, and its failure, its answer and an empty `choices` map to the 502, the 200 and the escaping exception |
| App.Handle | app.py:91-119 | a missing question, both or neither of url and text, and an invalid url each give their 400 with no request; a failed fetch gives the 422 guidance message after the one GET; accepted fields with content end as `Answering` says (422, 500, 502, 200 or the escaping exception) |
| App.Analyze | app.py:84-119 | a body without a question gives the 400 "question is required", and a body without url and text gives a 400, both with no request |
| AnalyzeProperties.PaddingIgnored | app.py:87-89 | whitespace around any of the three fields, each padded on its own, changes neither the response nor the requests made |
| AnalyzeProperties.FtpUrlRefused | app.py:99-101 | an ftp url with a question is refused with the 400 "invalid url" and nothing is fetched |
| AnalyzeProperties.FetchNeedsValidUrl | app.py:99-103 | a page is fetched only when there is a question, no text and a url that passes `is_url` |
| AnalyzeProperties.FetchesOnlyTheUrl | app.py:103 | the only page ever fetched is the url field |
| AnalyzeProperties.FetchBeforePost | app.py:102-114 | at most two requests are made, and when there are two the second is the POST: the page is fetched before the model is asked |
| AnalyzeProperties.PastedTextPath | app.py:108-112 | with no url nothing is fetched and the 422 "no text could be extracted" never occurs |
| AnalyzeProperties.NoTextMeansEmptyPage | app.py:111-112 | the 422 "no text could be extracted" comes only from an accepted url whose fetched page's parsed text is all whitespace, and the GET is then the only request |
| AnalyzeProperties.EmptyPageIsNoText | app.py:111-112 | an accepted url whose fetched page's parsed text is all whitespace always gives that 422 after the one GET |
| AnalyzeProperties.KeyGateBeforePost | app.py:50-51 | without a usable key nothing is posted and the response is an error other than 502 |
| AnalyzeProperties.MissingKeyIs500 | app.py:116-117 | without a usable key, the 500 with the key message occurs exactly when the fields are accepted and the content is non-empty |
| AnalyzeProperties.UpstreamFailureMessage | app.py:118-119 | a 502 comes only from a failed POST, and its message is "AI request failed: " followed by the failure's text |
| AnalyzeProperties.UpstreamFailureAfterPost | app.py:65-66 | a 502 follows the POST, which is the last request made |
| AnalyzeProperties.FailedPostIs502 | app.py:118-119 | once a POST is made, its failure always gives the 502 with the failure's text |
| AnalyzeProperties.StatusCodes | app.py:84-119 | every error response has status 400, 422, 500 or 502 |
| AnalyzeProperties.UncaughtOnlyForEmptyChoices | app.py:68 | the only exception that escapes is the `IndexError` of an empty `choices`, after a POST |
| AnalyzeProperties.AnswerFromReply | app.py:114-115 | a 200 answer is non-empty, unpadded, and exactly what the reply holds |
| AnalyzeProperties.AnswerAfterPost | app.py:109-115 | a 200 answer needs a usable key and accepted fields, and comes after exactly one POST of the non-empty, capped content and the question |
| AnalyzeProperties.AnsweredWhenAllSucceeds | app.py:111-115 | accepted fields with non-empty content, a usable key and a reply with a first choice always give the 200 with the reply's answer, after one POST of that content and question |
| AnalyzeProperties.PastedTextAnswered | app.py:108-115 | pasted text with a question, a usable key and an answered reply gives the 200, and the only request is the POST of the capped text |
| AnalyzeProperties.FailedPostGives502 | app.py:116-119 | accepted fields with non-empty content and a usable key, and a failed POST, always give the 502 "AI request failed: " plus the failure's text, after that POST |

## Left out

- Flask plumbing is not modelled: the routes for `/` and the icon, `jsonify`, static files and `app.run`. A response is a datatype.
- Reading `.env` and the environment is not modelled. The key is a parameter.
- The HTTP requests themselves are not modelled: the browser headers of the GET (`User-Agent`, `Accept`, `Accept-Language`), the `Content-Type` header of the POST, the timeouts and redirects. How each request ends is a parameter. The POST's endpoint, `Authorization` header and JSON body are modelled.
- A `Content-Type` header that is not JSON, or a body that is not a JSON object, is not modelled. The body is always an object whose fields are strings or absent.
- HTML parsing is not modelled. This covers BeautifulSoup, removing the `script`, `style`, `head`, `nav` and `footer` elements, `get_text`, and encoding detection. A fetched page is given as the text that step extracts.
- `temperature` is the real number 0.3, not a binary floating-point value.
- A reply body that is not valid JSON is not modelled. `r.json()` would then raise a `ValueError` that the handler turns into a 500.
- JSON values of the wrong type are not modelled: a `null` or non-object `choices[0]` or `message`, and a non-string `content`. They raise `AttributeError`s that escape the handler.
- Reply shapes other than an object with an optional `choices` list are not modelled. A `choices` that is `null` raises `TypeError`, a `choices` that is an object raises `KeyError`, and a reply that is not an object raises `AttributeError`; all three escape the handler.
- A key that is not a valid header value is not modelled. It makes `requests` raise a `ValueError` before sending, which gives a 500.
- The error page Flask sends for the escaping `IndexError` is not modelled.
- App.Analyze: its contract states only the question and missing-field cases. The rest of its behaviour is `Handle` on the stripped fields. `AnalyzeProperties.PaddingIgnored` and `AnalyzeProperties.FtpUrlRefused` state two consequences.
