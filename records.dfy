/**
 * The values the pipeline passes around: article records, the three
 * sentiment categories, the errors each endpoint can report, and the
 * wrappers used for "a value or an error".
 */
module Records {

  datatype Option<T> = None | Some(value: T)

  datatype Result<T> = Ok(value: T) | Err(error: Error)

  /** The failures the pipeline reports to its caller as `{"error": ...}`. */
  datatype Error =
    | RequestFailed(cause: string)      // the HTTP fetch of the search page raised
    | NoArticles                        // no article survived parsing, or aggregation over none
    | TranslationFailed(cause: string)  // the translator raised
    | TtsFailed(cause: string)          // speech synthesis or writing the file raised

  /** The text of the `error` field for each failure. */
  function Message(e: Error): string
  {
    match e
    case RequestFailed(c) => "Request failed: " + c
    case NoArticles => "No articles found"
    case TranslationFailed(c) => "Translation failed: " + c
    case TtsFailed(c) => "TTS generation failed: " + c
  }

  /** Different failures never produce the same message, so a caller can
      tell them apart from the text alone. */
  lemma {:induction false} MessageInjective(e1: Error, e2: Error)
    requires Message(e1) == Message(e2)
    ensures e1 == e2
  {
    var m := Message(e1);
    match e1
    case RequestFailed(c) =>
      assert m[0] == 'R';
      assert m[|"Request failed: "|..] == c;
      assert e2.RequestFailed? && Message(e2)[|"Request failed: "|..] == e2.cause;
    case NoArticles =>
      assert m[0] == 'N';
      assert e2.NoArticles?;
    case TranslationFailed(c) =>
      assert m[0] == 'T' && m[1] == 'r';
      assert m[|"Translation failed: "|..] == c;
      assert e2.TranslationFailed? && Message(e2)[|"Translation failed: "|..] == e2.cause;
    case TtsFailed(c) =>
      assert m[0] == 'T' && m[1] == 'T';
      assert m[|"TTS generation failed: "|..] == c;
      assert e2.TtsFailed? && Message(e2)[|"TTS generation failed: "|..] == e2.cause;
  }

  datatype Sentiment = Positive | Negative | Neutral

  /** One news item: the dict built by the scraper, with the `sentiment`
      key that the analysis endpoint adds later. */
  datatype Article = Article(
    title: string,
    summary: string,
    topics: seq<string>,
    link: string,
    sentiment: Option<Sentiment>)
}
