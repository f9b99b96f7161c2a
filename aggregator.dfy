/**
 * Aggregation (`comparative_analysis`): one pass over the articles that
 * classifies each summary, increments the matching entry of a count
 * dictionary in place and collects the topics, followed by removing
 * duplicate topics through a set.
 */
module Aggregator {
  import opened Records
  import opened Classifier

  /** The `analysis` dictionary. `uniqueTopics` is `list(set(...))`, whose
      order Python leaves unspecified. */
  datatype Summary = Summary(
    totalArticles: nat,
    sentimentCounts: map<Sentiment, nat>,
    uniqueTopics: seq<string>)

  /** Number of articles whose summary classifies as `c`. */
  function CountOf(score: Scorer, articles: seq<Article>, c: Sentiment): nat
  {
    if articles == [] then 0
    else
      var init := CountOf(score, articles[..|articles| - 1], c);
      if AnalyzeSentiment(score, articles[|articles| - 1].summary) == c then init + 1 else init
  }

  /** The count dictionary for a list of articles. */
  function Tally(score: Scorer, articles: seq<Article>): (counts: map<Sentiment, nat>)
    ensures counts.Keys == {Positive, Negative, Neutral}
    ensures forall c | c in counts :: counts[c] == CountOf(score, articles, c)
  {
    map[Positive := CountOf(score, articles, Positive),
        Negative := CountOf(score, articles, Negative),
        Neutral := CountOf(score, articles, Neutral)]
  }

  /** Counting one more article adds one to its category's count only. */
  lemma TallyStep(score: Scorer, articles: seq<Article>)
    requires articles != []
    ensures var init, c := articles[..|articles| - 1], AnalyzeSentiment(score, articles[|articles| - 1].summary);
      Tally(score, articles) == Tally(score, init)[c := Tally(score, init)[c] + 1]
  {
  }

  /** `topics_covered`: every article's topics, one article after the other. */
  function TopicsCovered(articles: seq<Article>): seq<string>
  {
    if articles == [] then []
    else TopicsCovered(articles[..|articles| - 1]) + articles[|articles| - 1].topics
  }

  /** The union of the articles' topics. */
  function TopicUnion(articles: seq<Article>): set<string>
  {
    set a, t | a in articles && t in a.topics :: t
  }

  predicate NoDuplicates(s: seq<string>)
  {
    forall i, j :: 0 <= i < j < |s| ==> s[i] != s[j]
  }

  /** What a summary of `articles` must be: the article count, the count per
      category, and the topics without duplicates and without loss. */
  predicate Summarizes(score: Scorer, articles: seq<Article>, s: Summary)
  {
    && s.totalArticles == |articles|
    && s.sentimentCounts == Tally(score, articles)
    && NoDuplicates(s.uniqueTopics)
    && (set t | t in s.uniqueTopics) == TopicUnion(articles)
  }

  /** `list(some_set)`: the elements of the set, each once, in an order the
      model leaves open. */
  method ListOfSet(s: set<string>) returns (r: seq<string>)
    ensures NoDuplicates(r)
    ensures forall x :: x in r <==> x in s
    ensures |r| == |s|
  {
    r := [];
    var rest := s;
    while rest != {}
      invariant rest <= s
      invariant NoDuplicates(r)
      invariant forall x :: x in r <==> x in s && x !in rest
      invariant |r| + |rest| == |s|
      decreases |rest|
    {
      var x :| x in rest;
      r := r + [x];
      rest := rest - {x};
    }
  }

  /** `comparative_analysis(articles)`. */
  method ComparativeAnalysis(score: Scorer, articles: seq<Article>) returns (r: Result<Summary>)
    ensures articles == [] ==> r == Err(NoArticles)
    ensures articles != [] ==> r.Ok? && Summarizes(score, articles, r.value)
  {
    if articles == [] {
      return Err(NoArticles);
    }
    var sentimentCounts: map<Sentiment, nat> := map[Positive := 0, Negative := 0, Neutral := 0];
    var topicsCovered: seq<string> := [];
    for i := 0 to |articles|
      invariant sentimentCounts == Tally(score, articles[..i])
      invariant topicsCovered == TopicsCovered(articles[..i])
    {
      assert articles[..i + 1][..i] == articles[..i];
      TallyStep(score, articles[..i + 1]);
      var sentiment := AnalyzeSentiment(score, articles[i].summary);
      sentimentCounts := sentimentCounts[sentiment := sentimentCounts[sentiment] + 1];
      topicsCovered := topicsCovered + articles[i].topics;
    }
    assert articles[..|articles|] == articles;
    TopicsCoveredElements(articles);
    var uniqueTopics := ListOfSet(set t | t in topicsCovered);
    return Ok(Summary(|articles|, sentimentCounts, uniqueTopics));
  }

  /** The counts add up to the number of articles. */
  lemma {:induction false} CountsAddUp(score: Scorer, articles: seq<Article>)
    ensures CountOf(score, articles, Positive) + CountOf(score, articles, Negative)
            + CountOf(score, articles, Neutral) == |articles|
  {
    if articles != [] {
      CountsAddUp(score, articles[..|articles| - 1]);
    }
  }

  /** In a summary, the per-category counts add up to `total_articles`,
      which is the number of articles. */
  lemma SummaryCountsAddUp(score: Scorer, articles: seq<Article>, s: Summary)
    requires Summarizes(score, articles, s)
    ensures s.sentimentCounts[Positive] + s.sentimentCounts[Negative]
            + s.sentimentCounts[Neutral] == s.totalArticles == |articles|
  {
    CountsAddUp(score, articles);
  }

  /** The collected topics hold exactly the topics of the articles. */
  lemma {:induction false} TopicsCoveredElements(articles: seq<Article>)
    ensures forall t :: t in TopicsCovered(articles) <==> t in TopicUnion(articles)
  {
    if articles != [] {
      var init := articles[..|articles| - 1];
      var last := articles[|articles| - 1];
      TopicsCoveredElements(init);
      forall t ensures t in TopicUnion(articles) <==> t in TopicUnion(init) || t in last.topics {
        if t in TopicUnion(articles) {
          var a :| a in articles && t in a.topics;
          if a != last {
            assert a in init by {
              var k :| 0 <= k < |articles| && articles[k] == a;
              assert k < |articles| - 1;
              assert init[k] == a;
            }
          }
        }
        if t in TopicUnion(init) {
          var a :| a in init && t in a.topics;
          assert a in articles;
        }
      }
    }
  }

  /** The example of three articles classified Positive, Positive, Negative. */
  lemma ExampleTwoPositiveOneNegative(score: Scorer, articles: seq<Article>)
    requires |articles| == 3
    requires AnalyzeSentiment(score, articles[0].summary) == Positive
    requires AnalyzeSentiment(score, articles[1].summary) == Positive
    requires AnalyzeSentiment(score, articles[2].summary) == Negative
    ensures Tally(score, articles) == map[Positive := 2, Negative := 1, Neutral := 0]
  {
    var first, firstTwo := articles[..1], articles[..2];
    assert first[..0] == [] && first[0] == articles[0];
    assert firstTwo[..1] == first && firstTwo[1] == articles[1];
    assert articles[..2] == firstTwo;
    forall c ensures CountOf(score, first, c) == if c == Positive then 1 else 0 {}
    forall c ensures CountOf(score, firstTwo, c) == if c == Positive then 2 else 0 {}
    forall c ensures CountOf(score, articles, c) == if c == Positive then 2 else if c == Negative then 1 else 0 {}
  }
}
