# ITMObot request pipeline, modelled in Dafny

ITMObot answers questions about ITMO University over one HTTP endpoint,
`POST /api/request`. The handler in `app.py` does four things:

- It validates the request body.
- It asks a text-generation model for an answer.
- It extracts a discrete answer (an integer from 0 to 10, or none) from the model's text.
- It classifies the query as multiple-choice or open-ended and attaches evidence:
  an encyclopedia summary for multiple-choice queries, recent ITMO news links otherwise.

This project models that decision logic. The three collaborators are inputs:

- the model's stripped output;
- the encyclopedia page looked up by the query;
- the parsed news feed.

The project has six files:

- `wrappers.dfy`: `Option` and `Min`.
- `answer_extractor.dfy`: `extract_answer`. This is the search for
  `(?i)\b(null|10|\d)\b`, written as a scan of start positions that tries the
  three alternatives in the order written. It is specified by a declarative
  reading of the pattern (`Occurs`, `Leftmost`, `TokenFree`).
- `question_classifier.dfy`: the line-73 test for the substring newline, `1`, `.`.
- `evidence_selector.dfy`: how `fetch_wiki` and `fetch_news` shape what their
  collaborators return (the `[:500]` and `[:3]` slices and the link comprehension).
- `request_orchestrator.dfy`: `process_request` as a method. It builds the `sources`
  list step by step and returns a reply: HTTP 400 with `"Invalid request"`, HTTP 200
  with the response envelope, or an uncaught exception (HTTP 500).
- `scenarios.dfy`: five example requests. Their outcomes follow from the
  handler's contract alone.

Some behaviours of the code are easy to misread; the model follows the code:

- An encyclopedia page that exists but has an empty summary adds no source, because of `if wiki_summary:`.
- One entry without a link among the first three makes the news list empty. Reading `entry.link` raises, and that handler catches it.
- A `query` that is not a string makes `re.search` raise. The handler then fails with HTTP 500 instead of replying.
- The reasoning holds the generator's text after `.strip()`, not the raw text.

## Model

| member | source | states |
|---|---|---|
| AnswerExtractor.DigitValue | app.py:54 | `int(value)` of one matched ASCII digit is between 0 and 9 |
| AnswerExtractor.MatchAt | app.py:51 | one attempt of the regex at a start position succeeds with token t exactly when t occurs there between word boundaries |
| AnswerExtractor.Search | app.py:51 | `re.search` finds the leftmost token at or after the start; no token is skipped, and None means no token at all |
| AnswerExtractor.ExtractAnswer | app.py:50-55 | total on every text, the empty one included; an answer is always an integer from 0 to 10 |
| AnswerExtractor.OccursUnique | app.py:51 | at one position at most one of `null`, `10`, a digit can match, so the order of the alternatives never changes the result |
| AnswerExtractor.LeftmostTokenDecides | app.py:51-54 | the leftmost token decides: `null` in any case gives None, a numeral gives its value |
| AnswerExtractor.TokenFreeGivesNone | app.py:55 | text with no qualifying token gives None |
| AnswerExtractor.AnswerIsLeftmostNumeral | app.py:51-54 | every answer v is the value of the leftmost token, which is the numeral v |
| AnswerExtractor.SingleWord | app.py:51 | a one-word text answers only if the word is exactly `10` or a single digit, so digits inside longer words never match |
| AnswerExtractor.SkipsTokenFreePrefix | app.py:51 | a token-free lead-in ending in a separator does not change the answer of the text after it |
| AnswerExtractor.OneWordExamples | app.py:50-55 | `100`, `11`, `05`, `2024`, `a3`, `_3`, `nullify`, `NuLL` and the empty text give None; `10` gives 10 and `7` gives 7 |
| AnswerExtractor.LabelledExamples | app.py:50-55 | `Ответ: 3` gives 3 and `Ответ: null` gives None |
| QuestionClassifier.FindMarker | app.py:73 | the scan from a position finds the marker exactly when it occurs at or after that position |
| QuestionClassifier.IsMultipleChoice | app.py:73 | a query is multiple-choice if and only if it contains newline, `1`, `.` contiguously |
| QuestionClassifier.ClassificationSurvivesContext | app.py:73 | text added around a multiple-choice query keeps it multiple-choice |
| QuestionClassifier.NeedsNewline | app.py:73 | a query without a newline, such as one starting with `1.`, is never multiple-choice |
| QuestionClassifier.OnlyOptionOne | app.py:73 | if no newline-`1` pair is followed by `.` (lists numbered `10.`, lettered `a)`), the query is not multiple-choice |
| QuestionClassifier.MarkerMayStraddle | app.py:73 | the marker can span the join of two texts, neither of which is multiple-choice alone |
| QuestionClassifier.Examples | app.py:73 | a query with `\n1.` is multiple-choice; queries with a `1.` first line only, a `\n10.` list, an `a)` list or no list are not |
| EvidenceSelector.FetchWiki | app.py:32-38 | a summary exists exactly when the lookup succeeded and the page exists; it is the prefix of the page summary of length min(500, length) |
| EvidenceSelector.Links | app.py:44 | the comprehension succeeds exactly when every entry has a link, and then gives the links in order |
| EvidenceSelector.FetchNews | app.py:41-47 | at most 3 links: those of the first min(3, n) entries, in feed order; empty on feed failure or on a missing link |
| RequestOrchestrator.IsValidRequest | app.py:66 | a body is valid exactly when it has both `query` and `id`; the empty-body test adds nothing |
| RequestOrchestrator.Reasoning | app.py:84 | the reasoning is `No response` exactly when the generator gave nothing or an empty text; otherwise it is `Model response: ` followed by the text verbatim |
| RequestOrchestrator.ProcessRequest | app.py:64-92 | rejects with `Invalid request` exactly when `query` or `id` is missing; otherwise replies whatever the collaborators did (unless the query is not text); echoes `id`; suppresses the answer for open-ended queries and empty generations, else extracts it; sources hold at most 3 items of one kind: for a multiple-choice query exactly one encyclopedia prefix when the page exists with a non-empty summary and none otherwise, for an open-ended query the first feed links in order |

## Left out

- HTTP plumbing is not modelled: the Flask application, the routes, `home()`, `app.run`, `request.get_json()` and `jsonify`. The body is taken as an already parsed JSON object. A body that is not an object, or that is not JSON, is not modelled.
- The text-generation pipeline and its prompt are not modelled. `generate_response` becomes an input: a function from the query to the model's stripped output, with `None` when it raises.
- The encyclopedia client and the feed download are not modelled. Their outcomes are inputs, and an exception becomes `None`. Whether a collaborator was called at all (only one evidence source is consulted per request) is not observable in the model.
- The `print` logging in the exception handlers is not modelled. It only has side effects.
- AnswerExtractor.IsDigit: `\d` and `int()` are restricted to ASCII `0`-`9`. Python also accepts other Unicode decimal digits.
- AnswerExtractor.IsWordChar: `\w` is enumerated only for ASCII, Latin-1 and the Cyrillic block U+0400-U+04FF. Word characters from other scripts count as non-word characters here.
- JSON numbers are modelled as reals; floating-point behaviour plays no part in the handler.
