/**
 * The two request handlers: `fetch_news`, which scrapes, labels each article
 * with its sentiment and attaches the comparative analysis, and
 * `generate_tts`, which scrapes, analyses, composes the English report,
 * translates it to Hindi and synthesises speech from the translation.
 * The translator and the speech synthesiser are given as functions from
 * their input text to an outcome; the handlers also return the list of calls
 * they made to them, so that "not attempted" can be stated.
 */
module Endpoints {
  import opened Records
  import opened Classifier
  import opened Extractor
  import opened Aggregator
  import opened Narrator

  /** The reply of the analysis endpoint. */
  datatype AnalysisReply = AnalysisReply(company: string, analysis: Summary, articles: seq<Article>)

  /** The reply of the speech endpoint. */
  datatype SpeechReply = SpeechReply(message: string, file: string)

  /** What the translator does with a text: its translation, or an exception. */
  datatype Translation = Translated(text: string) | TranslationRaised(cause: string)

  /** What the synthesiser does with a text: the audio file written, or an exception. */
  datatype Synthesis = Saved | SynthesisRaised(cause: string)

  /** A call the speech endpoint makes to an outside service. */
  datatype ExternalCall =
    | Translate(text: string, source: string, target: string)
    | Synthesize(text: string, language: string, path: string)

  const SourceLanguage: string := "en"
  const TargetLanguage: string := "hi"
  const AudioPath: string := "/tmp/output.mp3"
  const SuccessMessage: string := "TTS generated successfully!"

  /** The articles with the `sentiment` key set from their summaries. */
  function Labelled(score: Scorer, articles: seq<Article>): (r: seq<Article>)
    ensures |r| == |articles|
  {
    seq(|articles|, i requires 0 <= i < |articles| =>
      articles[i].(sentiment := Some(AnalyzeSentiment(score, articles[i].summary))))
  }

  /** Number of articles labelled `c`. */
  function LabelCount(articles: seq<Article>, c: Sentiment): nat
  {
    if articles == [] then 0
    else
      var init := LabelCount(articles[..|articles| - 1], c);
      if articles[|articles| - 1].sentiment == Some(c) then init + 1 else init
  }

  /** The labels agree with the analysis: as many articles are labelled `c`
      as the analysis counts for `c`. */
  lemma {:induction false} LabelsAgreeWithCounts(score: Scorer, articles: seq<Article>, c: Sentiment)
    ensures LabelCount(Labelled(score, articles), c) == CountOf(score, articles, c)
  {
    if articles != [] {
      var init := articles[..|articles| - 1];
      LabelsAgreeWithCounts(score, init, c);
      var labelled := Labelled(score, articles);
      assert labelled[..|labelled| - 1] == Labelled(score, init);
    }
  }

  /** `fetch_news`: a failed scrape is passed on; otherwise every article is
      labelled, in place, and the analysis is attached. */
  method FetchNews(company: string, page: Page, score: Scorer) returns (r: Result<AnalysisReply>)
    ensures Scrape(page).Err? ==> r == Err(Scrape(page).error)
    ensures Scrape(page).Ok? ==>
      && r.Ok?
      && r.value.company == company
      && r.value.articles == Labelled(score, Scrape(page).value)
      && Summarizes(score, Scrape(page).value, r.value.analysis)
      && r.value.analysis.sentimentCounts.Keys == {Positive, Negative, Neutral}
      && forall c | c in r.value.analysis.sentimentCounts ::
           r.value.analysis.sentimentCounts[c] == LabelCount(r.value.articles, c)
  {
    var scraped := ScrapeNews(page);
    if scraped.Err? {
      return Err(scraped.error);
    }
    var articles := scraped.value;
    ghost var original := articles;
    for i := 0 to |articles|
      invariant |articles| == |original|
      invariant articles[..i] == Labelled(score, original)[..i]
      invariant articles[i..] == original[i..]
    {
      articles := articles[i := articles[i].(sentiment := Some(AnalyzeSentiment(score, articles[i].summary)))];
    }
    assert articles == Labelled(score, original);
    assert original != [] by { ScrapeOutcome(page); }
    var analysis := ComparativeAnalysis(score, articles);
    SummaryOfLabelled(score, original);
    forall c | c in Tally(score, original) ensures Tally(score, original)[c] == LabelCount(articles, c) {
      LabelsAgreeWithCounts(score, original, c);
    }
    return Ok(AnalysisReply(company, analysis.value, articles));
  }

  /** Labelling changes neither the summaries nor the topics, so the
      analysis of the labelled articles is that of the scraped ones. */
  lemma SummaryOfLabelled(score: Scorer, articles: seq<Article>)
    ensures Tally(score, Labelled(score, articles)) == Tally(score, articles)
    ensures TopicUnion(Labelled(score, articles)) == TopicUnion(articles)
  {
    var labelled := Labelled(score, articles);
    forall c ensures CountOf(score, labelled, c) == CountOf(score, articles, c) {
      SameSummariesSameCounts(score, labelled, articles, c);
    }
    forall t | t in TopicUnion(articles) ensures t in TopicUnion(labelled) {
      var a :| a in articles && t in a.topics;
      var k :| 0 <= k < |articles| && articles[k] == a;
      assert labelled[k].topics == a.topics;
    }
    forall t | t in TopicUnion(labelled) ensures t in TopicUnion(articles) {
      var a :| a in labelled && t in a.topics;
      var k :| 0 <= k < |labelled| && labelled[k] == a;
      assert articles[k] in articles;
    }
  }

  lemma {:induction false} SameSummariesSameCounts(score: Scorer, xs: seq<Article>, ys: seq<Article>, c: Sentiment)
    requires |xs| == |ys|
    requires forall i :: 0 <= i < |xs| ==> xs[i].summary == ys[i].summary
    ensures CountOf(score, xs, c) == CountOf(score, ys, c)
  {
    if xs != [] {
      SameSummariesSameCounts(score, xs[..|xs| - 1], ys[..|ys| - 1], c);
    }
  }

  /** `text` is an English report for these articles, under some order of
      the deduplicated topics. */
  ghost predicate IsReportFor(company: string, score: Scorer, articles: seq<Article>, text: string)
  {
    exists s :: Summarizes(score, articles, s) && HasAllCounts(s) && text == Report(company, s, articles)
  }

  /** `generate_tts`: a failed scrape is passed on without any outside call;
      otherwise the report is translated from English to Hindi; a failed
      translation ends the request and synthesis is never attempted; a
      failed synthesis is reported as such; otherwise the audio file path is
      returned. */
  method GenerateTts(company: string, page: Page, score: Scorer,
                     translate: string -> Translation, synthesize: string -> Synthesis)
    returns (r: Result<SpeechReply>, calls: seq<ExternalCall>)
    ensures Scrape(page).Err? ==> r == Err(Scrape(page).error) && calls == []
    ensures Scrape(page).Ok? ==>
      && 1 <= |calls| <= 2
      && calls[0].Translate?
      && calls[0].source == "en" && calls[0].target == "hi"
      && IsReportFor(company, score, Scrape(page).value, calls[0].text)
      && match translate(calls[0].text)
         case TranslationRaised(cause) =>
           r == Err(TranslationFailed(cause)) && |calls| == 1
         case Translated(hindi) =>
           && calls == [calls[0], Synthesize(hindi, "hi", "/tmp/output.mp3")]
           && match synthesize(hindi)
              case SynthesisRaised(cause) => r == Err(TtsFailed(cause))
              case Saved => r == Ok(SpeechReply("TTS generated successfully!", "/tmp/output.mp3"))
  {
    calls := [];
    var scraped := ScrapeNews(page);
    if scraped.Err? {
      return Err(scraped.error), calls;
    }
    var articles := scraped.value;
    assert articles != [] by { ScrapeOutcome(page); }
    var analysis := ComparativeAnalysis(score, articles);
    var summary := analysis.value;
    var english := ComposeReport(company, summary, articles);
    calls := calls + [Translate(english, SourceLanguage, TargetLanguage)];
    var translation := translate(english);
    if translation.TranslationRaised? {
      return Err(TranslationFailed(translation.cause)), calls;
    }
    var hindi := translation.text;
    calls := calls + [Synthesize(hindi, TargetLanguage, AudioPath)];
    var synthesis := synthesize(hindi);
    if synthesis.SynthesisRaised? {
      return Err(TtsFailed(synthesis.cause)), calls;
    }
    return Ok(SpeechReply(SuccessMessage, AudioPath)), calls;
  }
}
