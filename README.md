# News sentiment backend — a Dafny model

This project models the backend of a news sentiment service, `src/backend.py`.
The backend has two request handlers:

- `fetch_news` scrapes up to ten news items about a company. It labels each
  item's summary Positive, Negative or Neutral and attaches a comparative
  analysis: the article count, the count per category, and the topics
  without duplicates.
- `generate_tts` scrapes and analyses the company's news again, on its own,
  and builds an English report from that analysis. The report has a header
  and a numbered digest of the first three articles. The handler translates
  the report to Hindi and synthesises speech from the translation.

The model is split by stage, one module per file:

| file | module | what it holds |
|---|---|---|
| `records.dfy` | `Records` | article records, sentiment categories, error values and their messages |
| `text.dfy` | `Text` | the string primitives the code relies on: `str.split()`, `str.strip(chars)`, `str.istitle()`, `", ".join` and decimal formatting of counts |
| `topics.dfy` | `TopicExtraction` | the topic rule applied to a title |
| `extractor.dfy` | `Extractor` | `scrape_news` over an already fetched and parsed page |
| `classifier.dfy` | `Classifier` | `analyze_sentiment`, given the compound score |
| `aggregator.dfy` | `Aggregator` | `comparative_analysis` |
| `narrator.dfy` | `Narrator` | the English report that `generate_tts` builds |
| `endpoints.dfy` | `Endpoints` | `fetch_news` and `generate_tts` |

Some parts depend on the outside world. They become inputs to the model:

- **The page.** The HTTP response is a `Page`: either a transport failure
  with its message, or the `div.news-card` blocks in document order. Each
  block has an optional `a.title` tag, with its text and optional `href`,
  and an optional `div.snippet` text.
- **The score.** The VADER compound score is a function parameter
  `score: string -> real`.
- **The translator and the synthesiser** are function parameters that
  return either a result or a raised exception. `GenerateTts` also returns
  the list of calls it made to them. This lets the model state which calls
  happen on each path, for example that synthesis is never attempted after
  a failed translation.

Where the code does something in place, the model does too:

- `ScrapeNews` appends to a list in a loop.
- `ComparativeAnalysis` increments a count map in a loop.
- `FetchNews` sets each article's `sentiment` in a loop.
- `ComposeHeader` and `AppendDigest` build the report with `+=`.

Each of these methods is proved against a specification function, and the
lemmas next to that function state what the source promises.

### Edge cases, as the code handles them

- **A title link without `href`.** Looking up `title_tag["href"]` raises a
  `KeyError`. The per-block `except` catches it and skips the block, so no
  article is produced for it; the model drops it too (`ParseBlockCases`). A
  `"#"` link is used only when the block has no title tag at all.
- **"No articles found".** This is reported when no block among the first
  ten parses, not only when the page has no blocks (`ScrapeOutcome`).
- **Topics.** A topic is a whitespace-separated word of the title for which
  `str.istitle()` holds, with `,.?!` stripped from both of its ends. It is
  not a word that is "capitalised, then lower case": `"U.S."` is kept (as
  `"U.S"`), while `"iPhone"` and `"AI"` are not (`ExampleMixedCase`).
- **A block without a title tag.** It gets the title `"No title"`, and its
  topics are computed from that placeholder, giving `["No"]`
  (`PlaceholderTopics`).

## Model

| member | source | states |
|---|---|---|
| Extractor.ScrapeNews | src/backend.py:41-76 | the loop over the first ten blocks returns exactly `Scrape(page)`: a failed fetch is a "Request failed" error, no surviving article is "No articles found", otherwise the parsed articles in block order |
| Extractor.ScrapeOutcome | src/backend.py:41-76 | a transport failure surfaces as `RequestFailed` without parsing; the result is `NoArticles` if and only if none of the first ten blocks parses; an `Ok` list has between 1 and 10 articles and is the parsed blocks |
| Extractor.ParseBlockCases | src/backend.py:52-70 | a block is dropped if and only if it has a title tag without `href`; no title tag gives title "No title" and link "#"; no snippet gives "No summary"; otherwise title and summary are the tag texts stripped of whitespace and the link is the `href`; topics are those of the title; no sentiment yet |
| Extractor.ParseAllKeeps | src/backend.py:51-70 | the k-th article comes from the k-th block that parses, the source blocks are in increasing order, and every block that parses is represented |
| Extractor.ParseAllBound | src/backend.py:51 | never more articles than blocks looked at |
| Extractor.ParseAllNoneDropped | src/backend.py:51-68 | when every block parses, article i is block i's |
| Extractor.ParseAllRecords | src/backend.py:56-68 | every scraped article's topics are the topics of its own title, and no article carries a sentiment yet |
| Extractor.PlaceholderTopics | src/backend.py:56-61 | the placeholder title "No title" yields the single topic "No" |
| Extractor.Considered | src/backend.py:51 | the blocks looked at are a prefix of the page's blocks, at most ten long, and all of them when there are at most ten |
| TopicExtraction.TopicsWellFormed | src/backend.py:61 | at most one topic per word of the title, and every topic is non-empty, has a letter, has no whitespace and neither begins nor ends with `,.?!` |
| TopicExtraction.TopicsOfSelects | src/backend.py:61 | a string is a topic if and only if it is the punctuation-stripped form of some title-cased word |
| TopicExtraction.TopicsOfAppend | src/backend.py:61 | the comprehension keeps word order: the topics of two runs of words are those of the first followed by those of the second |
| TopicExtraction.TopicsAtSpace | src/backend.py:61 | for any title, the topics before a whitespace character come first, followed by the topics after it, whatever the whitespace |
| TopicExtraction.TopicsOfWord | src/backend.py:61 | a single word yields its `,.?!`-stripped form when it is title-cased and nothing otherwise |
| TopicExtraction.TopicsOfAllTitles | src/backend.py:61 | when every word is title-cased, the topics are all the words, in order, each stripped of `,.?!` |
| TopicExtraction.StrippedTitleIsTopic | src/backend.py:61 | stripping `,.?!` from a title-cased word never leaves it empty or without a letter |
| TopicExtraction.ExampleAppleReports | src/backend.py:61 | the title "Apple Reports Record Profit." has the topics Apple, Reports, Record, Profit |
| TopicExtraction.ExampleMixedCase | src/backend.py:61 | the title "U.S. iPhone AI Sales" has the topics U.S and Sales only |
| Text.SplitWords | src/backend.py:61 | `split()` yields non-empty words without whitespace whose concatenation is the text with its whitespace removed |
| Text.SplitAtSpace | src/backend.py:61 | every whitespace character is a word boundary: the words before it, then the words after it, in order |
| Text.SplitWord | src/backend.py:61 | a non-empty run without whitespace is exactly one word |
| Text.SplitJoin | src/backend.py:61 | splitting words joined by single spaces gives the words back |
| Text.StripEdges | src/backend.py:56-61 | `strip(chars)` removes only characters of the set, and the kept text begins and ends outside the set |
| Text.StripKeeps | src/backend.py:56-61 | a character outside the set is never removed by `strip` |
| Text.StripUnchanged | src/backend.py:61 | a text already beginning and ending outside the set is left unchanged by `strip` |
| Text.IsSpaceInWhitespace | src/backend.py:56-61 | the whitespace test agrees with the set of characters that `strip()` and `split()` treat as whitespace |
| Text.IsTitleMeans | src/backend.py:61 | `istitle()` holds if and only if the word has a letter, every upper-case letter follows an uncased character, and every lower-case letter follows a cased one |
| Text.DecimalDigits | src/backend.py:155-162 | a number prints as a non-empty string of digits without a leading zero |
| Text.DecimalRoundTrip | src/backend.py:155-162 | reading the printed number back gives the number |
| Classifier.CategoryMonotone | src/backend.py:82-87 | a higher score never gives a lower category in the order Negative, Neutral, Positive |
| Classifier.Category | src/backend.py:80-87 | Positive if and only if the compound score is above zero, Negative if and only if below, Neutral if and only if exactly zero |
| Aggregator.ComparativeAnalysis | src/backend.py:95-115 | no articles gives "No articles found"; otherwise the result summarises the articles: their number, the count per category, and the topics, each once and none lost |
| Aggregator.ListOfSet | src/backend.py:109 | `list(set(...))` holds every element of the set exactly once and nothing else |
| Aggregator.Tally | src/backend.py:99-105 | the count map has exactly the three categories as keys, each mapped to the number of articles classified that way |
| Aggregator.CountsAddUp | src/backend.py:99-112 | the three category counts add up to the number of articles |
| Aggregator.SummaryCountsAddUp | src/backend.py:99-114 | in any summary, the counts add up to `total_articles` |
| Aggregator.TopicsCoveredElements | src/backend.py:101-107 | the collected topics are exactly the union of the articles' topics |
| Aggregator.ExampleTwoPositiveOneNegative | src/backend.py:99-105 | two Positive summaries and one Negative give the counts 2, 1, 0 |
| Endpoints.FetchNews | src/backend.py:121-138 | a scrape error is returned as is; otherwise every article is labelled with its summary's category in place, and the analysis summarises the scraped articles, with its counts equal to the labels given |
| Endpoints.LabelsAgreeWithCounts | src/backend.py:128-132 | the number of articles labelled with a category equals the analysis count for that category |
| Endpoints.SummaryOfLabelled | src/backend.py:128-132 | labelling changes neither the counts nor the topic union of the analysis |
| Endpoints.SameSummariesSameCounts | src/backend.py:103-105 | the counts depend only on the summaries |
| Endpoints.GenerateTts | src/backend.py:146-186 | a scrape error is returned with no outside call; otherwise the report is translated from "en" to "hi"; a failed translation returns "Translation failed" and synthesis is never attempted; otherwise the Hindi text is synthesised in "hi" to "/tmp/output.mp3"; a failure returns "TTS generation failed", success the fixed message and path |
| Narrator.ComposeHeader | src/backend.py:154-159 | the six appends build exactly the header: company, total, the three counts and the topics joined by ", " |
| Narrator.AppendDigest | src/backend.py:161-162 | the loop appends exactly the numbered digest of the given articles |
| Narrator.ComposeReport | src/backend.py:154-162 | the text built is exactly the header followed by the digest of the first three articles |
| Narrator.Narrated | src/backend.py:161 | the narrated articles are the first min(3, n) articles |
| Narrator.DigestStep | src/backend.py:161-162 | one more article adds its entry, numbered after the earlier ones |
| Narrator.DigestNumbersFromOne | src/backend.py:161-162 | the digest is the entries numbered 1, 2, … in article order |
| Narrator.ReportLayout | src/backend.py:154-162 | the report is the header then min(3, n) entries numbered from 1; with no topics the topics line reads "Key topics covered: ." |
| Narrator.DigestOfFirstThree | src/backend.py:161-162 | with three or more articles, the digest names exactly articles 1, 2 and 3 |
| Records.MessageInjective | src/backend.py:44-184 | the four error messages never coincide, so the error is recoverable from its text |

## Left out

- The HTTP request, the URL and headers it uses, and its timeout are not modelled. The outcome of the fetch is the `Page` input.
- BeautifulSoup's HTML parsing and CSS selection are not modelled. The selected blocks are the `Page` input.
- VADER's lexicon scoring is an external library. It is the `score` parameter.
- googletrans and gTTS are external services. The translator and the synthesiser are parameters, and writing the audio file is part of the synthesiser's outcome.
- NLTK's data download, the `/tmp/` directory creation, the debug prints, FastAPI routing, the request model, the duplicated route decorator and the uvicorn start-up are framework or I/O code with no logic to verify.
- `sentiment_list` in `comparative_analysis` is built but never read, so it is not modelled.
- `fetch_news`'s `except` branch that returns "Internal Server Error" is not modelled: none of the modelled steps raises once the scrape has succeeded. An exception from the scorer is outside the model.
- `istitle` and its case tests are modelled with ASCII upper- and lower-case letters only; every other character counts as uncased. Whitespace, as `str.split()` and `str.strip()` see it, is Python's full set of 29 `isspace` characters.
- Aggregator.ListOfSet: the order of `list(set(...))` depends on Python's hashing and is left unspecified. The model chooses the order arbitrarily and proves only that each element appears exactly once.
- Endpoints.GenerateTts: ties the spoken text to a report for some ordering of the unique topics (`IsReportFor`), because that ordering is unspecified.
- The other application files (the front-end script and the alternative API modules) are not part of this model.
