/**
  A client of the request handler: the behaviour of typical requests, derived
  from `ProcessRequest`'s contract alone.
*/
module PipelineScenarios {
  import opened Wrappers
  import opened AnswerExtractor
  import opened QuestionClassifier
  import opened EvidenceSelector
  import opened RequestOrchestrator

  const Feed: Option<seq<FeedEntry>> := Some([
    FeedEntry(Some("https://news.itmo.ru/1")),
    FeedEntry(Some("https://news.itmo.ru/2")),
    FeedEntry(Some("https://news.itmo.ru/3")),
    FeedEntry(Some("https://news.itmo.ru/4"))])

  const Summary: string := "Университет ИТМО"

  function Lookup(title: string): Option<WikiPage>
  {
    Some(WikiPage(true, Summary))
  }

  const OpenQuery: string := "Какой город столица России?\n"

  const FirstLinks: seq<string> := ["https://news.itmo.ru/1", "https://news.itmo.ru/2", "https://news.itmo.ru/3"]

  lemma OpenQueryFacts()
    ensures !IsMultipleChoice(OpenQuery)
    ensures FetchNews(Feed) == FirstLinks
  {
    OnlyOptionOne(OpenQuery);
  }

  /** An open-ended query whose generated text says "null": no answer, and
      the first three news links as evidence. */
  method OpenEndedQuery()
  {
    OpenQueryFacts();
    var r := ProcessRequest(
      map["query" := JString(OpenQuery), "id" := JNumber(1.0)],
      q => Some("Ответ: null"), Lookup, Feed);
    assert r.Answered? && r.Status() == 200;
    assert r.envelope.answer == None && r.envelope.id == JNumber(1.0);
    assert |r.envelope.sources| == 3;
    assert r.envelope.sources == [ItmoNews(FirstLinks[0]), ItmoNews(FirstLinks[1]), ItmoNews(FirstLinks[2])];
  }

  /** A multiple-choice query answered "3", with an encyclopedia page found. */
  method MultipleChoiceQuery()
  {
    var query := "Вопрос\n1. Да\n2. Нет";
    assert MarkerAt(query, 6);
    SingleWord("3");
    var r := ProcessRequest(
      map["query" := JString(query), "id" := JNumber(2.0)],
      q => Some("3"), Lookup, Feed);
    assert r.Answered?;
    assert r.envelope.answer == Some(3);
    assert Summary[..Min(SummaryLimit, |Summary|)] == Summary;
    assert r.envelope.sources == [Wikipedia(Summary)];
    assert r.envelope.reasoning == ModelResponsePrefix + "3";
  }

  /** A body without `id` is rejected. */
  method MissingId()
  {
    var r := ProcessRequest(map["query" := JString("x")], q => Some("3"), Lookup, Feed);
    assert r == Rejected(InvalidRequest) && r.Status() == 400;
  }

  /** The generator fails: no answer, the fixed reasoning, still a success. */
  method GeneratorFails()
  {
    var r := ProcessRequest(
      map["query" := JString("Вопрос\n1. Да\n2. Нет"), "id" := JString("d")],
      q => None, Lookup, Feed);
    assert r.Answered? && r.Status() == 200;
    assert r.envelope.answer == None && r.envelope.reasoning == NoResponse;
  }

  /** A query that is not text makes the handler raise. */
  method QueryNotText()
  {
    var r := ProcessRequest(map["query" := JNumber(5.0), "id" := JNull], q => None, Lookup, Feed);
    assert r == Crashed && r.Status() == 500;
  }

  /** A multiple-choice query whose page has an empty summary, or is not
      found, gets no evidence at all. */
  method PageWithoutEvidence()
  {
    var query := "Вопрос\n1. Да\n2. Нет";
    assert MarkerAt(query, 6);
    var body := map["query" := JString(query), "id" := JNumber(3.0)];
    var r := ProcessRequest(body, q => Some("3"), t => Some(WikiPage(true, "")), Feed);
    assert r.Answered? && r.envelope.sources == [];
    r := ProcessRequest(body, q => Some("3"), t => Some(WikiPage(false, "abc")), Feed);
    assert r.Answered? && r.envelope.sources == [];
  }
}
