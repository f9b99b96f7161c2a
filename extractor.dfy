/**
 * Article extraction (`scrape_news`). The HTTP request and the HTML parsing
 * are outside the model: the fetched page is either a transport failure or
 * the sequence of item blocks the CSS selector found, each with its
 * optional title link and optional snippet.
 */
module Extractor {
  import opened Records
  import opened Text
  import opened TopicExtraction

  /** The `a.title` element of a block: its text and its `href` attribute, if any. */
  datatype TitleTag = TitleTag(text: string, href: Option<string>)

  /** One `div.news-card` block: its title link and its `div.snippet` text, each optional. */
  datatype Block = Block(title: Option<TitleTag>, snippet: Option<string>)

  /** The outcome of the GET request for the search page. */
  datatype Page = FetchFailed(cause: string) | Fetched(blocks: seq<Block>)

  /** Only the first ten blocks are looked at. */
  const MaxArticles: nat := 10

  const NoTitle: string := "No title"
  const NoSummary: string := "No summary"
  const NoLink: string := "#"

  /** The body of the `try` for one block: `None` when it raises (a title
      link without `href`) and the block is skipped. */
  function ParseBlock(b: Block): Option<Article>
  {
    var summary := if b.snippet.Some? then Strip(b.snippet.value, Whitespace) else NoSummary;
    match b.title
    case None => Some(Article(NoTitle, summary, Topics(NoTitle), NoLink, None))
    case Some(tag) =>
      if tag.href.None? then None
      else
        var title := Strip(tag.text, Whitespace);
        Some(Article(title, summary, Topics(title), tag.href.value, None))
  }

  /** The blocks the loop visits. */
  function Considered(blocks: seq<Block>): (items: seq<Block>)
    ensures |items| <= MaxArticles && |items| <= |blocks|
    ensures items == blocks[..|items|]
    ensures |items| == MaxArticles || items == blocks
  {
    if |blocks| > MaxArticles then blocks[..MaxArticles] else blocks
  }

  /** The articles parsed from a run of blocks, in block order, skipping the
      blocks that raise. */
  function ParseAll(items: seq<Block>): seq<Article>
  {
    if items == [] then []
    else
      var init := ParseAll(items[..|items| - 1]);
      var last := ParseBlock(items[|items| - 1]);
      if last.Some? then init + [last.value] else init
  }

  /** What `scrape_news` returns for a fetched page. */
  function Scrape(page: Page): Result<seq<Article>>
  {
    match page
    case FetchFailed(cause) => Err(RequestFailed(cause))
    case Fetched(blocks) =>
      var articles := ParseAll(Considered(blocks));
      if articles == [] then Err(NoArticles) else Ok(articles)
  }

  /** `scrape_news`: the loop over the first ten blocks, appending each
      parsed article. */
  method ScrapeNews(page: Page) returns (r: Result<seq<Article>>)
    ensures r == Scrape(page)
  {
    if page.FetchFailed? {
      return Err(RequestFailed(page.cause));
    }
    var items := Considered(page.blocks);
    var articles: seq<Article> := [];
    var i := 0;
    while i < |items|
      invariant 0 <= i <= |items|
      invariant articles == ParseAll(items[..i])
    {
      assert items[..i + 1][..i] == items[..i];
      var parsed := ParseBlock(items[i]);
      if parsed.Some? {
        articles := articles + [parsed.value];
      }
      i := i + 1;
    }
    assert items[..i] == items;
    if articles == [] {
      return Err(NoArticles);
    }
    return Ok(articles);
  }

  // ---------------------------------------------------------------------
  // Properties of one block

  /** A block without a title link gets the title "No title" and the link
      "#"; a block without a snippet gets "No summary"; a block whose title
      link has no `href` is dropped; otherwise title, summary and link are
      the block's own, trimmed of whitespace. In every case the topics are
      those of the title and no sentiment is set yet. */
  lemma ParseBlockCases(b: Block)
    ensures ParseBlock(b).None? <==> b.title.Some? && b.title.value.href.None?
    ensures ParseBlock(b).Some? ==>
      var a := ParseBlock(b).value;
      && (b.title.None? ==> a.title == "No title" && a.link == "#")
      && (b.title.Some? ==> a.title == Strip(b.title.value.text, Whitespace) && a.link == b.title.value.href.value)
      && (b.snippet.None? ==> a.summary == "No summary")
      && (b.snippet.Some? ==> a.summary == Strip(b.snippet.value, Whitespace))
      && a.topics == Topics(a.title)
      && a.sentiment.None?
  {
  }

  // ---------------------------------------------------------------------
  // Properties of the whole extraction

  /** The indices of the blocks that parse, in increasing order. */
  function Kept(items: seq<Block>): seq<nat>
  {
    if items == [] then []
    else
      var init := Kept(items[..|items| - 1]);
      if ParseBlock(items[|items| - 1]).Some? then init + [|items| - 1] else init
  }

  /** The extracted articles are exactly the parsed blocks, in block order:
      the k-th article comes from the k-th block that parses, and every
      block that parses is among them. */
  lemma {:induction false} ParseAllKeeps(items: seq<Block>)
    ensures |Kept(items)| == |ParseAll(items)|
    ensures forall k :: 0 <= k < |Kept(items)| ==>
              Kept(items)[k] < |items| && ParseBlock(items[Kept(items)[k]]) == Some(ParseAll(items)[k])
    ensures forall k, l :: 0 <= k < l < |Kept(items)| ==> Kept(items)[k] < Kept(items)[l]
    ensures forall i :: 0 <= i < |items| && ParseBlock(items[i]).Some? ==> i in Kept(items)
  {
    if items != [] {
      var init, last := items[..|items| - 1], items[|items| - 1];
      ParseAllKeeps(init);
      var kept, parsed := Kept(init), ParseAll(init);
      forall k | 0 <= k < |kept| ensures items[kept[k]] == init[kept[k]] {
      }
      if ParseBlock(last).Some? {
        assert Kept(items) == kept + [|items| - 1];
        assert ParseAll(items) == parsed + [ParseBlock(last).value];
      } else {
        assert Kept(items) == kept && ParseAll(items) == parsed;
      }
      forall i | 0 <= i < |init| && ParseBlock(items[i]).Some? ensures i in Kept(items) {
        assert items[i] == init[i];
      }
    }
  }

  /** At most ten articles, never more than there are blocks. */
  lemma {:induction false} ParseAllBound(items: seq<Block>)
    ensures |ParseAll(items)| <= |items|
  {
    if items != [] {
      ParseAllBound(items[..|items| - 1]);
    }
  }

  /** The outcome of a scrape: a transport failure surfaces as "Request
      failed", and parsing is never reached; otherwise the result is an
      error "No articles found" exactly when none of the first ten blocks
      parses, and a list of at most ten articles otherwise. */
  lemma ScrapeOutcome(page: Page)
    ensures page.FetchFailed? ==> Scrape(page) == Err(RequestFailed(page.cause))
    ensures page.Fetched? ==>
      var items := Considered(page.blocks);
      && (Scrape(page) == Err(NoArticles) <==> forall i :: 0 <= i < |items| ==> ParseBlock(items[i]).None?)
      && (Scrape(page).Ok? ==> 0 < |Scrape(page).value| <= MaxArticles && Scrape(page).value == ParseAll(items))
  {
    if page.Fetched? {
      var items := Considered(page.blocks);
      ParseAllKeeps(items);
      ParseAllBound(items);
      if ParseAll(items) != [] {
        assert ParseBlock(items[Kept(items)[0]]).Some?;
      }
    }
  }

  /** When no block is dropped, the k-th article is the k-th block's. */
  lemma {:induction false} ParseAllNoneDropped(items: seq<Block>)
    requires forall i :: 0 <= i < |items| ==> ParseBlock(items[i]).Some?
    ensures |ParseAll(items)| == |items|
    ensures forall i :: 0 <= i < |items| ==> ParseAll(items)[i] == ParseBlock(items[i]).value
  {
    if items != [] {
      var init := items[..|items| - 1];
      ParseAllNoneDropped(init);
      assert ParseAll(items) == ParseAll(init) + [ParseBlock(items[|items| - 1]).value];
      forall i | 0 <= i < |init| ensures ParseAll(items)[i] == ParseBlock(items[i]).value {
        assert items[i] == init[i];
      }
    }
  }

  /** Every article's topics are those of its title, and no article carries
      a sentiment yet. */
  lemma {:induction false} ParseAllRecords(items: seq<Block>)
    ensures forall k :: 0 <= k < |ParseAll(items)| ==>
              ParseAll(items)[k].topics == Topics(ParseAll(items)[k].title) && ParseAll(items)[k].sentiment.None?
  {
    if items != [] {
      ParseAllRecords(items[..|items| - 1]);
    }
  }

  /** A block without a title link is reported under the title "No title",
      whose only title-cased word is "No": such an article has the topic "No". */
  lemma PlaceholderTopics()
    ensures Topics(NoTitle) == ["No"]
  {
    PlaceholderWords();
    PlaceholderWordTopics();
  }

  lemma PlaceholderWords()
    ensures Split("No title") == ["No", "title"]
  {
    PlaceholderWellFormed();
    PlaceholderJoin();
    ExampleSplit(["No", "title"], "No title");
  }

  lemma PlaceholderWellFormed() ensures WellFormedWords(["No", "title"]) {}
  lemma PlaceholderJoin() ensures Join(" ", ["No", "title"]) == "No title" {}
  lemma TitleNo() ensures IsTitle("No") {}
  lemma NotTitleLower() ensures !IsTitle("title") {}

  lemma PlaceholderWordTopics()
    ensures TopicsOf(["No", "title"]) == ["No"]
  {
    NotTitleLower();
    TopicsOfSkip("title", [], []);
    TitleNo();
    StripUnchanged("No", Punctuation);
    TopicsOfCons("No", "No", ["title"], []);
  }
}
