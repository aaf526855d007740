/** What `analyze` promises across all its branches, stated for every three
    stripped fields, key and outcome of the two outbound requests. Each lemma
    walks the same three stages: the field checks, the content, the answer. */
module AnalyzeProperties {
  import opened Strings
  import opened Completion
  import opened App

  /** Every field is stripped before use: whitespace around the url, the
      text or the question, each padded on its own, changes nothing. */
  lemma PaddingIgnored(u: string, t: string, q: string,
                       u1: string, u2: string, t1: string, t2: string, q1: string, q2: string,
                       key: ApiKey, fetched: FetchOutcome, posted: PostOutcome)
    requires AllSpace(u1) && AllSpace(u2) && AllSpace(t1) && AllSpace(t2) && AllSpace(q1) && AllSpace(q2)
    ensures Analyze(Body(Some(u1 + u + u2), Some(t1 + t + t2), Some(q1 + q + q2)), key, fetched, posted)
         == Analyze(Body(Some(u), Some(t), Some(q)), key, fetched, posted)
  {
    StripPadded(u1, u, u2);
    StripPadded(t1, t, t2);
    StripPadded(q1, q, q2);
  }

  /** An ftp url is refused as invalid, and nothing is fetched. */
  lemma FtpUrlRefused(q: string, key: ApiKey, fetched: FetchOutcome, posted: PostOutcome)
    requires !AllSpace(q)
    ensures Analyze(Body(Some("ftp://example.com"), None, Some(q)), key, fetched, posted)
         == Exchange(Err(400, InvalidUrl), [])
  {
    var u := "ftp://example.com";
    StripSurrounded([], u, []);
    assert [] + u + [] == u;
    FtpIsNotUrl();
  }

  /** A page is fetched only for a request with a question, no text and a
      url that passes `is_url`. */
  lemma FetchNeedsValidUrl(url: string, text: string, question: string, key: ApiKey,
                           fetched: FetchOutcome, posted: PostOutcome)
    ensures var x := Handle(url, text, question, key, fetched, posted);
      !NoGet(x.calls) ==> question != "" && text == "" && url != "" && IsUrl(url)
  {
  }

  /** The only page ever fetched is the one the url field names. */
  lemma FetchesOnlyTheUrl(url: string, text: string, question: string, key: ApiKey,
                          fetched: FetchOutcome, posted: PostOutcome)
    ensures var x := Handle(url, text, question, key, fetched, posted);
      forall c :: c in x.calls && c.Get? ==> c == Get(url)
  {
    // The case split is not needed for validity; it keeps the solver's cost low.
    match Validate(url, text, question)
    case Rejected(_) =>
    case Accepted(source, q) =>
      match Obtain(source, fetched)
      case FetchBlocked =>
      case Content(content, calls) =>
        assert calls == [] || calls == [Get(url)];
  }

  /** At most two requests go out, and only the first can be the fetch: the
      page is read before the model is asked. */
  lemma FetchBeforePost(url: string, text: string, question: string, key: ApiKey,
                        fetched: FetchOutcome, posted: PostOutcome)
    ensures var x := Handle(url, text, question, key, fetched, posted);
      |x.calls| <= 2 && (|x.calls| == 2 ==> x.calls[1].Post?)
  {
  }

  /** Pasted text is never fetched and never counts as empty content. */
  lemma PastedTextPath(url: string, text: string, question: string, key: ApiKey,
                       fetched: FetchOutcome, posted: PostOutcome)
    requires url == ""
    ensures var x := Handle(url, text, question, key, fetched, posted);
      NoGet(x.calls) && x.response != Err(422, NoText)
  {
  }

  /** "no text could be extracted" comes only from a fetched page without
      visible text, and after the fetch no request is made. */
  lemma NoTextMeansEmptyPage(url: string, text: string, question: string, key: ApiKey,
                             fetched: FetchOutcome, posted: PostOutcome)
    ensures var x := Handle(url, text, question, key, fetched, posted);
      x.response == Err(422, NoText) ==>
        Validate(url, text, question) == Accepted(FromUrl(url), question)
        && fetched.Fetched? && AllSpace(fetched.soupText)
        && x.calls == [Get(url)]
  {
    // The case split is not needed for validity; it keeps the solver's cost low.
    match Validate(url, text, question)
    case Rejected(_) =>
    case Accepted(source, q) =>
      match Obtain(source, fetched)
      case FetchBlocked =>
      case Content(content, calls) =>
        if source.FromText? {
          assert content != "";
        }
  }

  /** A fetched page without visible text is refused with the 422. */
  lemma EmptyPageIsNoText(url: string, text: string, question: string, key: ApiKey,
                          fetched: FetchOutcome, posted: PostOutcome)
    requires Validate(url, text, question) == Accepted(FromUrl(url), question)
    requires fetched.Fetched? && AllSpace(fetched.soupText)
    ensures Handle(url, text, question, key, fetched, posted) == Exchange(Err(422, NoText), [Get(url)])
  {
  }

  /** Without a usable key nothing is posted, and the response is an error
      but never the 502 of a failed POST. */
  lemma KeyGateBeforePost(url: string, text: string, question: string, key: ApiKey,
                          fetched: FetchOutcome, posted: PostOutcome)
    requires !KeyUsable(key)
    ensures var x := Handle(url, text, question, key, fetched, posted);
      NoPost(x.calls) && x.response.Err? && x.response.status != 502
  {
  }

  /** Without a usable key, exactly the requests that pass the checks and
      have content get the 500 of the key gate. */
  lemma MissingKeyIs500(url: string, text: string, question: string, key: ApiKey,
                        fetched: FetchOutcome, posted: PostOutcome)
    requires !KeyUsable(key)
    ensures var x := Handle(url, text, question, key, fetched, posted);
      x.response == Err(500, KeyNotSet) <==>
        (Validate(url, text, question).Accepted?
         && Obtain(Validate(url, text, question).source, fetched).Content?
         && Obtain(Validate(url, text, question).source, fetched).text != "")
  {
  }

  /** A 502 comes only from a failed POST and carries "AI request failed: "
      followed by the text of that failure. */
  lemma UpstreamFailureMessage(url: string, text: string, question: string, key: ApiKey,
                               fetched: FetchOutcome, posted: PostOutcome)
    ensures var x := Handle(url, text, question, key, fetched, posted);
      x.response.Err? && x.response.status == 502 ==>
        posted.PostFailed? && x.response.message == AiFailed + posted.detail
  {
  }

  /** A 502 follows the POST, which is the last request made. */
  lemma UpstreamFailureAfterPost(url: string, text: string, question: string, key: ApiKey,
                                 fetched: FetchOutcome, posted: PostOutcome)
    ensures var x := Handle(url, text, question, key, fetched, posted);
      x.response.Err? && x.response.status == 502 ==>
        |x.calls| > 0 && x.calls[|x.calls| - 1].Post?
  {
  }

  /** Once a POST is made, its failure always gives the 502. */
  lemma FailedPostIs502(url: string, text: string, question: string, key: ApiKey,
                        fetched: FetchOutcome, posted: PostOutcome)
    ensures var x := Handle(url, text, question, key, fetched, posted);
      !NoPost(x.calls) && posted.PostFailed? ==>
        x.response == Err(502, AiFailed + posted.detail)
  {
  }

  /** The handler answers with no error status other than 400, 422, 500
      and 502. */
  lemma StatusCodes(url: string, text: string, question: string, key: ApiKey,
                    fetched: FetchOutcome, posted: PostOutcome)
    ensures var x := Handle(url, text, question, key, fetched, posted);
      x.response.Err? ==> x.response.status in {400, 422, 500, 502}
  {
  }

  /** The only exception that escapes the handler is the `IndexError` of a
      reply whose `choices` is empty, and only after the POST. */
  lemma UncaughtOnlyForEmptyChoices(url: string, text: string, question: string, key: ApiKey,
                                    fetched: FetchOutcome, posted: PostOutcome)
    ensures var x := Handle(url, text, question, key, fetched, posted);
      x.response.Uncaught? ==> posted == Replied(Reply(Some([]))) && !NoPost(x.calls)
  {
    match Validate(url, text, question)
    case Rejected(_) =>
    case Accepted(source, q) =>
      match Obtain(source, fetched)
      case FetchBlocked =>
      case Content(content, calls) =>
        var x := Answering(content, q, key, posted, calls);
        if x.response.Uncaught? {
          assert x.calls[|calls|].Post?;
        }
  }

  /** An answer is never empty or padded and is what the reply holds. */
  lemma AnswerFromReply(url: string, text: string, question: string, key: ApiKey,
                        fetched: FetchOutcome, posted: PostOutcome)
    ensures var x := Handle(url, text, question, key, fetched, posted);
      x.response.Ok? ==>
        x.response.answer != "" && NoEdgeSpace(x.response.answer)
        && posted.Replied? && ReadAnswer(posted.reply) == Answer(x.response.answer)
  {
  }

  /** An answer needs a usable key and accepted fields; the POST that got it
      is the last call and carries the question and the content, which is not
      empty and at most 4000 characters long. */
  lemma AnswerAfterPost(url: string, text: string, question: string, key: ApiKey,
                        fetched: FetchOutcome, posted: PostOutcome)
    ensures var x := Handle(url, text, question, key, fetched, posted);
      x.response.Ok? ==>
        KeyUsable(key) && Validate(url, text, question).Accepted?
        && (var o := Obtain(Validate(url, text, question).source, fetched);
            o.Content? && o.text != "" && |o.text| <= MaxTextChars
            && x.calls == o.calls + [Post(ChatRequest(o.text, question, key.value))])
  {
  }

  /** Accepted fields with non-empty content, a usable key and a reply with a
      first choice always give the 200 with the answer read from the reply,
      after exactly one POST of that content and question. */
  lemma AnsweredWhenAllSucceeds(url: string, text: string, question: string, key: ApiKey,
                                fetched: FetchOutcome, reply: Reply)
    requires Validate(url, text, question).Accepted?
    requires var o := Obtain(Validate(url, text, question).source, fetched); o.Content? && o.text != ""
    requires KeyUsable(key) && ReadAnswer(reply).Answer?
    ensures var o := Obtain(Validate(url, text, question).source, fetched);
      Handle(url, text, question, key, fetched, Replied(reply))
        == Exchange(Ok(ReadAnswer(reply).text), o.calls + [Post(ChatRequest(o.text, question, key.value))])
  {
  }

  /** Pasted text with a usable key and an answered reply gives the 200; the
      one request made is the POST of the capped text. */
  lemma PastedTextAnswered(text: string, question: string, key: ApiKey,
                           fetched: FetchOutcome, reply: Reply)
    requires text != "" && question != ""
    requires KeyUsable(key) && ReadAnswer(reply).Answer?
    ensures Handle("", text, question, key, fetched, Replied(reply))
         == Exchange(Ok(ReadAnswer(reply).text), [Post(ChatRequest(Cap(text), question, key.value))])
  {
  }

  /** Accepted fields with non-empty content and a usable key, and a POST
      that fails, always give the 502 with the failure's text. */
  lemma FailedPostGives502(url: string, text: string, question: string, key: ApiKey,
                           fetched: FetchOutcome, detail: string)
    requires Validate(url, text, question).Accepted?
    requires var o := Obtain(Validate(url, text, question).source, fetched); o.Content? && o.text != ""
    requires KeyUsable(key)
    ensures var o := Obtain(Validate(url, text, question).source, fetched);
      Handle(url, text, question, key, fetched, PostFailed(detail))
        == Exchange(Err(502, AiFailed + detail), o.calls + [Post(ChatRequest(o.text, question, key.value))])
  {
  }
}
