/**
 * The English report that is translated and spoken: a header built from the
 * summary, then a numbered digest of the first three articles, each part
 * appended to the text with `+=`.
 */
module Narrator {
  import opened Records
  import opened Text
  import opened Aggregator

  /** At most this many articles are read out. */
  const MaxNarrated: nat := 3

  /** The summary has an entry for each category, as the analysis always does. */
  predicate HasAllCounts(s: Summary)
  {
    Positive in s.sentimentCounts && Negative in s.sentimentCounts && Neutral in s.sentimentCounts
  }

  /** The lines naming the company and the totals. */
  function CountsLines(company: string, s: Summary): string
    requires HasAllCounts(s)
  {
    "Comparative News Analysis for " + company + ":\n"
    + ("Total articles analyzed: " + Decimal(s.totalArticles) + ".\n")
    + ("Sentiment breakdown - Positive: " + Decimal(s.sentimentCounts[Positive]) + ", ")
    + ("Negative: " + Decimal(s.sentimentCounts[Negative]) + ", ")
    + ("Neutral: " + Decimal(s.sentimentCounts[Neutral]) + ".\n")
  }

  /** The header: the totals, then the topics separated by ", ". */
  function Header(company: string, s: Summary): string
    requires HasAllCounts(s)
  {
    CountsLines(company, s) + ("Key topics covered: " + Join(", ", s.uniqueTopics) + ".\n\n")
  }

  /** The digest entry for the article numbered `i`. */
  function Entry(i: nat, a: Article): string
  {
    Decimal(i) + ". " + a.title + " - " + a.summary + ".\n\n"
  }

  /** The entries of a run of articles, numbered from 1, as the loop appends them. */
  function Digest(articles: seq<Article>): string
  {
    if articles == [] then []
    else Digest(articles[..|articles| - 1]) + Entry(|articles|, articles[|articles| - 1])
  }

  /** One more article adds its entry, numbered after the ones before it. */
  lemma DigestStep(articles: seq<Article>, i: nat)
    requires i < |articles|
    ensures Digest(articles[..i + 1]) == Digest(articles[..i]) + Entry(i + 1, articles[i])
  {
    assert articles[..i + 1][..i] == articles[..i];
  }

  /** The articles that are read out. */
  function Narrated(articles: seq<Article>): (r: seq<Article>)
    ensures |r| == if |articles| < MaxNarrated then |articles| else MaxNarrated
    ensures r == articles[..|r|]
  {
    if |articles| > MaxNarrated then articles[..MaxNarrated] else articles
  }

  /** The whole English text. */
  function Report(company: string, s: Summary, articles: seq<Article>): string
    requires HasAllCounts(s)
  {
    Header(company, s) + Digest(Narrated(articles))
  }

  /** The first six appends of `generate_tts`: the totals and the topics. */
  method ComposeHeader(company: string, s: Summary) returns (text: string)
    requires HasAllCounts(s)
    ensures text == Header(company, s)
  {
    text := "Comparative News Analysis for " + company + ":\n";
    text := text + ("Total articles analyzed: " + Decimal(s.totalArticles) + ".\n");
    text := text + ("Sentiment breakdown - Positive: " + Decimal(s.sentimentCounts[Positive]) + ", ");
    text := text + ("Negative: " + Decimal(s.sentimentCounts[Negative]) + ", ");
    text := text + ("Neutral: " + Decimal(s.sentimentCounts[Neutral]) + ".\n");
    text := text + ("Key topics covered: " + Join(", ", s.uniqueTopics) + ".\n\n");
  }

  /** The loop of `generate_tts` that appends one formatted entry per
      narrated article, numbered from 1. */
  method AppendDigest(prefix: string, narrated: seq<Article>) returns (text: string)
    ensures text == prefix + Digest(narrated)
  {
    text := prefix;
    for i := 0 to |narrated|
      invariant text == prefix + Digest(narrated[..i])
    {
      DigestStep(narrated, i);
      text := text + Entry(i + 1, narrated[i]);
    }
    assert narrated[..|narrated|] == narrated;
  }

  /** The text building of `generate_tts`: the header, then the digest of
      the first three articles. */
  method ComposeReport(company: string, s: Summary, articles: seq<Article>) returns (text: string)
    requires HasAllCounts(s)
    ensures text == Report(company, s, articles)
  {
    var header := ComposeHeader(company, s);
    text := AppendDigest(header, Narrated(articles));
  }

  /** Concatenation of the digest entries numbered `from`, `from + 1`, ... */
  function EntriesFrom(from: nat, articles: seq<Article>): string
    decreases |articles|
  {
    if articles == [] then [] else Entry(from, articles[0]) + EntriesFrom(from + 1, articles[1..])
  }

  lemma {:induction false} EntriesFromSnoc(from: nat, articles: seq<Article>, a: Article)
    ensures EntriesFrom(from, articles + [a]) == EntriesFrom(from, articles) + Entry(from + |articles|, a)
    decreases |articles|
  {
    if articles == [] {
      assert articles + [a] == [a];
    } else {
      assert (articles + [a])[1..] == articles[1..] + [a];
      EntriesFromSnoc(from + 1, articles[1..], a);
    }
  }

  /** The digest is the entries "1. ...", "2. ...", ... of the articles in
      their order, each "i. title - summary." followed by a blank line. */
  lemma {:induction false} DigestNumbersFromOne(articles: seq<Article>)
    ensures Digest(articles) == EntriesFrom(1, articles)
  {
    if articles != [] {
      var init, last := articles[..|articles| - 1], articles[|articles| - 1];
      DigestNumbersFromOne(init);
      EntriesFromSnoc(1, init, last);
      assert init + [last] == articles;
    }
  }

  /** The report is the header followed by exactly min(3, n) entries,
      numbered from 1, for the first articles in order; with no topics the
      topics line reads "Key topics covered: .". */
  lemma ReportLayout(company: string, s: Summary, articles: seq<Article>)
    requires HasAllCounts(s)
    ensures Report(company, s, articles) == Header(company, s) + EntriesFrom(1, Narrated(articles))
    ensures |Narrated(articles)| == if |articles| < 3 then |articles| else 3
    ensures s.uniqueTopics == [] ==> Header(company, s) == CountsLines(company, s) + "Key topics covered: .\n\n"
  {
    DigestNumbersFromOne(Narrated(articles));
  }

  /** With three or more articles, the digest names exactly the first three. */
  lemma DigestOfFirstThree(articles: seq<Article>)
    requires |articles| >= 3
    ensures Digest(Narrated(articles)) ==
      Entry(1, articles[0]) + Entry(2, articles[1]) + Entry(3, articles[2])
  {
    var n := Narrated(articles);
    assert n[..2][..1] == n[..1] && n[..1][..0] == [];
    assert Digest(n[..1]) == Entry(1, articles[0]);
    assert Digest(n[..2]) == Entry(1, articles[0]) + Entry(2, articles[1]);
    assert n[..3] == n;
  }
}
