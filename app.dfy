/** The `/api/analyze` handler: it checks the three fields, takes the content
    from the page at the URL or from the pasted text, asks the model and turns
    every way this can end into one response. The page fetch, the HTML-to-text
    step of BeautifulSoup and the POST to the model are parameters. */
module App {
  import opened Strings
  import opened Completion

  const QuestionRequired := "question is required"
  const NotBoth := "provide either url or text, not both"
  const NeitherGiven := "provide url or text"
  const InvalidUrl := "invalid url"
  const SiteBlocked := "This site blocked the request (e.g. 403). Try pasting the page text manually in the text box instead."
  const NoText := "no text could be extracted"
  const AiFailed := "AI request failed: "

  /** The JSON body of the request; `None` is a field that is absent, null or
      otherwise falsy. */
  datatype Body = Body(url: Option<string>, text: Option<string>, question: Option<string>)

  /** `(body.get(name) or "").strip()` */
  function Field(f: Option<string>): (r: string)
    ensures NoEdgeSpace(r)
    ensures r == "" <==> f.None? || AllSpace(f.value)
  {
    Strip(f.GetOr(""))
  }

  /** How `requests.get(url, ...)` and `raise_for_status()` ended: with the
      page, given here as the text BeautifulSoup takes from it (the page
      parsed, its script, style, head, nav and footer elements removed,
      `get_text(separator=" ", strip=True)`), or with a `RequestException`. */
  datatype FetchOutcome = Fetched(soupText: string) | FetchFailed

  /** One outbound HTTP request, in the order they are made. */
  datatype Call = Get(url: string) | Post(request: PostRequest)

  /** The reply of the handler: `{"answer": ...}` with status 200, or
      `{"error": ...}` with a status, or an exception that escapes `analyze`
      (the `IndexError` of an empty `choices`), which Flask answers itself. */
  datatype Response = Ok(answer: string) | Err(status: int, message: string) | Uncaught

  /** A response and the outbound requests made to reach it. */
  datatype Exchange = Exchange(response: Response, calls: seq<Call>)

  predicate NoPost(calls: seq<Call>) {
    forall c :: c in calls ==> !c.Post?
  }

  predicate NoGet(calls: seq<Call>) {
    forall c :: c in calls ==> !c.Get?
  }

  /** `extract_visible_text`, after the BeautifulSoup step: its whitespace
      collapsed and stripped. */
  function ExtractVisibleText(soupText: string): (r: string)
    ensures |r| <= |soupText|
    ensures r == "" <==> AllSpace(soupText)
  {
    Normalise(soupText)
  }

  /** The extracted text is normal and keeps the words of the parser's text. */
  lemma ExtractedTextIsNormal(soupText: string)
    ensures IsNormal(ExtractVisibleText(soupText))
    ensures NonSpace(ExtractVisibleText(soupText)) == NonSpace(soupText)
  {
    NormaliseKeepsNonSpace(soupText);
  }

  /** `get_text_from_url`: the page's visible text, capped; or the fetch
      failed. */
  datatype PageText = PageText(text: string) | Blocked

  function GetTextFromUrl(fetched: FetchOutcome): (r: PageText)
    ensures r.Blocked? <==> fetched.FetchFailed?
    ensures r.PageText? ==> |r.text| <= MaxTextChars
    ensures r.PageText? ==> (r.text == "" <==> AllSpace(fetched.soupText))
  {
    match fetched
    case FetchFailed => Blocked
    case Fetched(soupText) => PageText(Cap(ExtractVisibleText(soupText)))
  }

  /** The page text is the start of the extracted text, all of it when it
      fits, with single plain spaces and no whitespace at its start. */
  lemma PageTextShape(fetched: FetchOutcome)
    requires fetched.Fetched?
    ensures var full, r := ExtractVisibleText(fetched.soupText), GetTextFromUrl(fetched);
      r.PageText? && r.text <= full && (|full| <= MaxTextChars ==> r.text == full)
      && (|full| > MaxTextChars ==> r.text == full[..MaxTextChars])
      && NoDoubleSpace(r.text) && SpacesAreBlank(r.text) && (r.text == [] || !IsSpace(r.text[0]))
  {
    var full := ExtractVisibleText(fetched.soupText);
    ExtractedTextIsNormal(fetched.soupText);
    CapOfNormal(full);
  }

  /** Where the content comes from, once the fields have been checked. */
  datatype Source = FromUrl(url: string) | FromText(text: string)

  /** The field checks, in the handler's order; every rejection is a 400. */
  datatype Checked = Accepted(source: Source, question: string) | Rejected(message: string)

  function Validate(url: string, text: string, question: string): (r: Checked)
    ensures r == Rejected(QuestionRequired) <==> question == ""
    ensures r == Rejected(NotBoth) <==> question != "" && url != "" && text != ""
    ensures r == Rejected(NeitherGiven) <==> question != "" && url == "" && text == ""
    ensures r == Rejected(InvalidUrl) <==> question != "" && url != "" && text == "" && !IsUrl(url)
    ensures r.Accepted? ==> r.question == question && r.question != ""
    ensures r == Accepted(FromUrl(url), question) <==>
      question != "" && url != "" && text == "" && IsUrl(url)
    ensures r == Accepted(FromText(text), question) <==> question != "" && url == "" && text != ""
  {
    if question == "" then Rejected(QuestionRequired)
    else if url != "" && text != "" then Rejected(NotBoth)
    else if url == "" && text == "" then Rejected(NeitherGiven)
    else if url != "" then
      if !IsUrl(url) then Rejected(InvalidUrl) else Accepted(FromUrl(url), question)
    else Accepted(FromText(text), question)
  }

  /** The content `analyze` goes on with, and the fetch made to get it; or
      the fetch failed. */
  datatype Obtained = Content(text: string, calls: seq<Call>) | FetchBlocked

  /** The two branches of `if url: ... else: ...`: fetch the page and extract
      its text, or cap the pasted text. */
  function Obtain(source: Source, fetched: FetchOutcome): (o: Obtained)
    ensures source.FromText? ==> o == Content(Cap(source.text), [])
    ensures source.FromUrl? ==> (o.FetchBlocked? <==> fetched.FetchFailed?)
    ensures source.FromUrl? && o.Content? ==> o.calls == [Get(source.url)]
    ensures source.FromUrl? && fetched.Fetched? ==>
      o == Content(GetTextFromUrl(fetched).text, [Get(source.url)])
    ensures o.Content? ==> |o.text| <= MaxTextChars
  {
    match source
    case FromUrl(url) =>
      (match GetTextFromUrl(fetched)
       case Blocked => FetchBlocked
       case PageText(content) => Content(content, [Get(url)]))
    case FromText(text) => Content(Cap(text), [])
  }

  /** The end of `analyze` once the content is known: refuse empty content,
      else ask the model and translate how that ended. */
  function Answering(content: string, question: string, key: ApiKey, posted: PostOutcome,
                     before: seq<Call>): (x: Exchange)
    ensures content == "" ==> x == Exchange(Err(422, NoText), before)
    ensures content != "" && !KeyUsable(key) ==> x == Exchange(Err(500, KeyNotSet), before)
    ensures content != "" && KeyUsable(key) ==>
      x.calls == before + [Post(ChatRequest(content, question, key.value))]
      && (posted.PostFailed? ==> x.response == Err(502, AiFailed + posted.detail))
      && (posted.Replied? && ReadAnswer(posted.reply).Answer? ==> x.response == Ok(ReadAnswer(posted.reply).text))
      && (posted == Replied(Reply(Some([]))) ==> x.response == Uncaught)
  {
    if content == "" then Exchange(Err(422, NoText), before)
    else
      var a := AskAi(content, question, key, posted);
      var calls := before + (if a.sent.Some? then [Post(a.sent.value)] else []);
      match a.outcome
      case Answered(answer) => Exchange(Ok(answer), calls)
      case ConfigError(message) => Exchange(Err(500, message), calls)
      case RequestFailed(detail) => Exchange(Err(502, AiFailed + detail), calls)
      case IndexError => Exchange(Uncaught, calls)
  }

  /** The branches of `analyze()` once the three fields have been read and
      stripped, for the configured key, how the page fetch would end and how
      the POST would end. */
  function Handle(url: string, text: string, question: string, key: ApiKey,
                  fetched: FetchOutcome, posted: PostOutcome): (x: Exchange)
    // A missing question decides the response, whatever url and text hold.
    ensures question == "" ==> x == Exchange(Err(400, QuestionRequired), [])
    // url and text exclude each other, and one of them is required.
    ensures question != "" && url != "" && text != "" ==> x == Exchange(Err(400, NotBoth), [])
    ensures question != "" && url == "" && text == "" ==> x == Exchange(Err(400, NeitherGiven), [])
    // A url that is not http(s) is refused before any fetch.
    ensures question != "" && url != "" && text == "" && !IsUrl(url) ==>
      x == Exchange(Err(400, InvalidUrl), [])
    // A failed fetch is a 422 with the guidance message, and the model is not asked.
    ensures question != "" && url != "" && text == "" && IsUrl(url) && fetched.FetchFailed? ==>
      x == Exchange(Err(422, SiteBlocked), [Get(url)])
    // Accepted fields with content go on to the model, after the fetch if there was one.
    ensures Validate(url, text, question).Accepted? ==>
      (var o := Obtain(Validate(url, text, question).source, fetched);
       o.Content? ==> x == Answering(o.text, question, key, posted, o.calls))
  {
    match Validate(url, text, question)
    case Rejected(message) => Exchange(Err(400, message), [])
    case Accepted(source, question) =>
      match Obtain(source, fetched)
      case FetchBlocked => Exchange(Err(422, SiteBlocked), [Get(source.url)])
      case Content(content, calls) => Answering(content, question, key, posted, calls)
  }

  /** `analyze()`: the request body read into its three stripped fields. */
  function Analyze(b: Body, key: ApiKey, fetched: FetchOutcome, posted: PostOutcome): (x: Exchange)
    ensures Field(b.question) == "" ==> x == Exchange(Err(400, QuestionRequired), [])
    ensures b.url.None? && b.text.None? ==> x.response.Err? && x.response.status == 400 && x.calls == []
  {
    Handle(Field(b.url), Field(b.text), Field(b.question), key, fetched, posted)
  }
}
