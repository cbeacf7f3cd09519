/**
  The request handler of the pipeline (app.py, `process_request`), with its
  three collaborators (the text generator, the encyclopedia lookup and the
  parsed news feed) passed in as inputs.  The handler validates the body,
  asks the generator, extracts the answer, classifies the query, collects the
  evidence of the one branch that applies, and assembles the response.
*/
module RequestOrchestrator {
  import opened Wrappers
  import opened AnswerExtractor
  import opened QuestionClassifier
  import opened EvidenceSelector

  /** A JSON value as the request body carries it. */
  datatype Json =
    | JNull
    | JBool(b: bool)
    | JNumber(n: real)
    | JString(s: string)
    | JArray(items: seq<Json>)
    | JObject(fields: map<string, Json>)

  /** One item of the response's `sources` list. */
  datatype Source =
    | Wikipedia(content: string)   // {"type": "wikipedia", "content": ...}
    | ItmoNews(link: string)       // {"type": "itmo_news", "link": ...}

  /** The success body: `id`, `answer`, `reasoning`, `sources`. */
  datatype Envelope = Envelope(id: Json, answer: Option<int>, reasoning: string, sources: seq<Source>)

  /** What the handler sends back. */
  datatype Reply =
    | Rejected(error: string)   // HTTP 400 with {"error": ...}
    | Answered(envelope: Envelope)   // HTTP 200
    | Crashed   // an uncaught exception, which the web framework turns into HTTP 500
  {
    function Status(): int
    {
      match this
      case Rejected(_) => 400
      case Answered(_) => 200
      case Crashed => 500
    }
  }

  const InvalidRequest: string := "Invalid request"
  const NoResponse: string := "No response"
  const ModelResponsePrefix: string := "Model response: "

  /** At most this many items reach the response. */
  const SourcesLimit: nat := 3

  /** The body carries both required keys (an empty body is rejected too). */
  function IsValidRequest(data: map<string, Json>): (valid: bool)
    ensures valid <==> "query" in data && "id" in data
  {
    !(|data| == 0 || "query" !in data || "id" !in data)
  }

  /** Python truthiness of the generator's result: present and not empty. */
  predicate Responded(generated: Option<string>)
  {
    generated.Some? && generated.value != ""
  }

  /** The `reasoning` field: the fixed message exactly when the generator
      gave nothing, otherwise the prefix followed by the generated text verbatim. */
  function Reasoning(generated: Option<string>): (reasoning: string)
    ensures reasoning == NoResponse <==> !Responded(generated)
    ensures Responded(generated) ==>
      && |reasoning| == |ModelResponsePrefix| + |generated.value|
      && reasoning[..|ModelResponsePrefix|] == ModelResponsePrefix
      && reasoning[|ModelResponsePrefix|..] == generated.value
  {
    if !Responded(generated) then NoResponse
    else
      var r := ModelResponsePrefix + generated.value;
      assert r[0] != NoResponse[0];
      r
  }

  /** All items of `sources` have the same kind. */
  predicate Homogeneous(sources: seq<Source>)
  {
    || (forall k :: 0 <= k < |sources| ==> sources[k].Wikipedia?)
    || (forall k :: 0 <= k < |sources| ==> sources[k].ItmoNews?)
  }

  /** `process_request`.  `generate` stands for `generate_response` (the model's
      stripped output for the prompt built from the query, `None` on failure),
      `lookup` for the encyclopedia client keyed by title, and `feed` for the
      entries parsed from the ITMO news RSS feed, https://news.itmo.ru/ru/rss/
      (`None` on failure). */
  method ProcessRequest(
    data: map<string, Json>,
    generate: Json -> Option<string>,
    lookup: string -> Option<WikiPage>,
    feed: Option<seq<FeedEntry>>
  ) returns (reply: Reply)
    // Only a body missing `query` or `id` is rejected, with the fixed message.
    ensures reply.Rejected? <==> !IsValidRequest(data)
    ensures reply.Rejected? ==> reply.error == InvalidRequest
    // A valid body is answered whatever the collaborators returned, unless its
    // query is not text, which makes the classifier's regex search raise.
    ensures IsValidRequest(data) ==> (reply.Answered? <==> data["query"].JString?)
    ensures reply.Answered? ==>
      && IsValidRequest(data) && data["query"].JString?
      && var query, generated, env := data["query"].s, generate(data["query"]), reply.envelope;
         && env.id == data["id"]
         && env.reasoning == Reasoning(generated)
         // The answer: suppressed for open-ended queries and when the generator
         // gave nothing, otherwise what the extractor finds in the generated text.
         && env.answer == (if IsMultipleChoice(query) && Responded(generated) then ExtractAnswer(generated.value) else None)
         && (env.answer.Some? ==> 0 <= env.answer.value <= 10)
         // The evidence: at most three items, all of one kind.
         && |env.sources| <= SourcesLimit
         && Homogeneous(env.sources)
         // Multiple-choice: at most one encyclopedia item, present exactly when
         // the page exists with a non-empty summary, holding its first 500 characters.
         && (IsMultipleChoice(query) ==>
               var page := lookup(query);
               && |env.sources| == (if page.Some? && page.value.found && page.value.summary != "" then 1 else 0)
               && forall k :: 0 <= k < |env.sources| ==>
                    && env.sources[k].Wikipedia?
                    && page.Some?
                    && env.sources[k].content == page.value.summary[..Min(SummaryLimit, |page.value.summary|)])
         // Open-ended: one news item per link of the first entries of the feed, in order.
         && (!IsMultipleChoice(query) ==>
               && |env.sources| == |FetchNews(feed)|
               && forall k :: 0 <= k < |env.sources| ==>
                    && env.sources[k].ItmoNews?
                    && feed.Some? && k < |feed.value| && feed.value[k].link.Some?
                    && env.sources[k].link == feed.value[k].link.value)
  {
    if |data| == 0 || "query" !in data || "id" !in data {
      return Rejected(InvalidRequest);
    }
    var query, reqId := data["query"], data["id"];
    var llmAnswer := generate(query);
    var answerNumber := if Responded(llmAnswer) then ExtractAnswer(llmAnswer.value) else None;

    if !query.JString? {
      return Crashed;
    }
    var isMultipleChoice := IsMultipleChoice(query.s);

    var sources: seq<Source> := [];
    if isMultipleChoice {
      var wikiSummary := FetchWiki(lookup(query.s));
      if wikiSummary.Some? && wikiSummary.value != "" {
        sources := sources + [Wikipedia(wikiSummary.value)];
      }
    } else {
      var newsLinks := FetchNews(feed);
      sources := sources + seq(|newsLinks|, k requires 0 <= k < |newsLinks| => ItmoNews(newsLinks[k]));
    }

    var reasoning := Reasoning(llmAnswer);
    reply := Answered(Envelope(
      reqId,
      if isMultipleChoice then answerNumber else None,
      reasoning,
      sources[..Min(SourcesLimit, |sources|)]));
  }
}
